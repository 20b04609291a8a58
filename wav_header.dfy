/** The front of services/voiceService.js: the RIFF check in `extractFeatures`
    and the canonical 44-byte RIFF WAVE header that `addWavHeaders` puts in
    front of raw 16-bit mono PCM at 16 kHz. */
module WavHeader {
  import opened Common

  const SampleRate: nat := 16000
  const NumChannels: nat := 1
  const BitsPerSample: nat := 16
  const BlockAlign: nat := 2
  /** WAVE_FORMAT_PCM */
  const FormatPcm: nat := 1
  const FmtChunkSize: nat := 16
  const HeaderSize: nat := 44
  const Two32: nat := 0x1_0000_0000

  // ---------------------------------------------------------------- field encodings

  /** `DataView.setUint32(offset, v, true)` stores these four bytes. */
  function U32LE(v: nat): (b: seq<byte>)
    requires v < Two32
    ensures |b| == 4
  {
    [v % 256, (v / 256) % 256, (v / 256 / 256) % 256, v / 256 / 256 / 256]
  }

  /** `DataView.setUint16(offset, v, true)` stores these two bytes. */
  function U16LE(v: nat): (b: seq<byte>)
    requires v < 65536
    ensures |b| == 2
  {
    [v % 256, v / 256]
  }

  function ReadU32LE(s: seq<byte>, offset: nat): nat
    requires offset + 4 <= |s|
  {
    s[offset] as int + 256 * s[offset + 1] as int + 65536 * s[offset + 2] as int
    + 16777216 * s[offset + 3] as int
  }

  function ReadU16LE(s: seq<byte>, offset: nat): nat
    requires offset + 2 <= |s|
  {
    s[offset] as int + 256 * s[offset + 1] as int
  }

  lemma U32RoundTrip(v: nat)
    requires v < Two32
    ensures ReadU32LE(U32LE(v), 0) == v
  {
    var q1 := v / 256;
    var q2 := q1 / 256;
    assert v == v % 256 + 256 * q1;
    assert q1 == q1 % 256 + 256 * q2;
    assert q2 == q2 % 256 + 256 * (q2 / 256);
  }

  lemma U16RoundTrip(v: nat)
    requires v < 65536
    ensures ReadU16LE(U16LE(v), 0) == v
  {
  }

  /** `writeString` stores `charCodeAt(i)` through `setUint8`, which keeps the
      low eight bits. */
  function AsciiBytes(s: string): (b: seq<byte>)
    ensures |b| == |s|
  {
    seq(|s|, i requires 0 <= i < |s| => (s[i] as int) % 256)
  }

  /** Node's 'ascii' decoding clears the high bit of every byte. */
  function AsciiText(b: seq<byte>): (s: string)
    ensures |s| == |b|
  {
    seq(|b|, i requires 0 <= i < |b| => ((b[i] % 128) as char))
  }

  // ---------------------------------------------------------------- the header

  /** The 44 bytes `addWavHeaders` writes for `n` bytes of PCM data: the RIFF
      chunk header, the `fmt ` chunk and the `data` chunk header. */
  function Header(n: nat): (h: seq<byte>)
    ensures |h| == HeaderSize
  {
    RiffChunkHeader(n) + FmtChunk() + DataChunkHeader(n)
  }

  /** "RIFF", the RIFF chunk size 36 + n (through `setUint32`, so modulo 2^32), "WAVE". */
  function RiffChunkHeader(n: nat): (h: seq<byte>)
    ensures |h| == 12
  {
    AsciiBytes("RIFF") + U32LE((36 + n) % Two32) + AsciiBytes("WAVE")
  }

  /** "fmt ", chunk size 16, PCM, mono, 16000 Hz, byte rate 16000 * 2, block
      align 2, 16 bits per sample. */
  function FmtChunk(): (h: seq<byte>)
    ensures |h| == 24
  {
    AsciiBytes("fmt ") + U32LE(FmtChunkSize) + U16LE(FormatPcm) + U16LE(NumChannels)
    + U32LE(SampleRate) + U32LE(SampleRate * BlockAlign) + U16LE(BlockAlign) + U16LE(BitsPerSample)
  }

  /** "data" and the data size n, modulo 2^32. */
  function DataChunkHeader(n: nat): (h: seq<byte>)
    ensures |h| == 8
  {
    AsciiBytes("data") + U32LE(n % Two32)
  }

  /** The fields of a canonical RIFF WAVE header. */
  datatype WavInfo = WavInfo(
    riffSize: nat, fmtSize: nat, format: nat, channels: nat, sampleRate: nat,
    byteRate: nat, blockAlign: nat, bitsPerSample: nat, dataSize: nat)

  /** Reads a canonical 44-byte header: the four chunk tags at their places and
      the little-endian fields between them. */
  function ParseHeader(b: seq<byte>): (r: Option<WavInfo>)
    ensures r.Some? ==> |b| >= HeaderSize && AsciiText(b[..4]) == "RIFF"
  {
    if |b| < HeaderSize || b[..4] != AsciiBytes("RIFF") || b[8..12] != AsciiBytes("WAVE")
       || b[12..16] != AsciiBytes("fmt ") || b[36..40] != AsciiBytes("data")
    then None
    else
      assert AsciiText(b[..4]) == "RIFF";
      Some(WavInfo(ReadU32LE(b, 4), ReadU32LE(b, 16), ReadU16LE(b, 20), ReadU16LE(b, 22),
                   ReadU32LE(b, 24), ReadU32LE(b, 28), ReadU16LE(b, 32), ReadU16LE(b, 34),
                   ReadU32LE(b, 40)))
  }

  /** What a WAV reader finds in front of the data: PCM, mono, 16 kHz, 16 bits,
      byte rate = sample rate x block align, and the sizes 36 + n and n (mod 2^32). */
  lemma ParseHeaderOfSynthesised(data: seq<byte>)
    ensures ParseHeader(Header(|data|) + data)
         == Some(WavInfo((36 + |data|) % Two32, 16, 1, 1, 16000, 32000, 2, 16, |data| % Two32))
  {
    var n := |data|;
    var b := Header(n) + data;
    var riff, fmt, dat := RiffChunkHeader(n), FmtChunk(), DataChunkHeader(n);
    assert b[..12] == riff;
    assert b[12..36] == fmt;
    assert b[36..44] == dat;
    assert b[..4] == riff[..4] == AsciiBytes("RIFF");
    assert b[8..12] == riff[8..12] == AsciiBytes("WAVE");
    assert b[12..16] == fmt[..4] == AsciiBytes("fmt ");
    assert b[36..40] == dat[..4] == AsciiBytes("data");
    RiffFields(b, n);
    FmtFields(b);
    DataFields(b, n);
  }

  lemma RiffFields(b: seq<byte>, n: nat)
    requires |b| >= 12 && b[..12] == RiffChunkHeader(n)
    ensures ReadU32LE(b, 4) == (36 + n) % Two32
  {
    var v := (36 + n) % Two32;
    assert b[4..8] == RiffChunkHeader(n)[4..8] == U32LE(v);
    U32Read(b, 4, v);
  }

  lemma FmtFields(b: seq<byte>)
    requires |b| >= 36 && b[12..36] == FmtChunk()
    ensures ReadU32LE(b, 16) == 16 && ReadU16LE(b, 20) == 1 && ReadU16LE(b, 22) == 1
    ensures ReadU32LE(b, 24) == 16000 && ReadU32LE(b, 28) == 32000
    ensures ReadU16LE(b, 32) == 2 && ReadU16LE(b, 34) == 16
  {
    var f := FmtChunk();
    assert f == AsciiBytes("fmt ") + [16, 0, 0, 0] + [1, 0] + [1, 0] + [128, 62, 0, 0] + [0, 125, 0, 0] + [2, 0] + [16, 0];
    assert b[16] == f[4] == 16 && b[17] == f[5] == 0 && b[18] == f[6] == 0 && b[19] == f[7] == 0;
    assert b[20] == f[8] && b[21] == f[9] && b[22] == f[10] && b[23] == f[11];
    assert b[24] == f[12] && b[25] == f[13] && b[26] == f[14] && b[27] == f[15];
    assert b[28] == f[16] && b[29] == f[17] && b[30] == f[18] && b[31] == f[19];
    assert b[32] == f[20] && b[33] == f[21] && b[34] == f[22] && b[35] == f[23];
  }

  lemma DataFields(b: seq<byte>, n: nat)
    requires |b| >= 44 && b[36..44] == DataChunkHeader(n)
    ensures ReadU32LE(b, 40) == n % Two32
  {
    assert b[40..44] == DataChunkHeader(n)[4..8] == U32LE(n % Two32);
    U32Read(b, 40, n % Two32);
  }

  lemma U32Read(b: seq<byte>, offset: nat, v: nat)
    requires v < Two32 && offset + 4 <= |b| && b[offset..offset + 4] == U32LE(v)
    ensures ReadU32LE(b, offset) == v
  {
    assert b[offset] == U32LE(v)[0] && b[offset + 1] == U32LE(v)[1];
    assert b[offset + 2] == U32LE(v)[2] && b[offset + 3] == U32LE(v)[3];
    U32RoundTrip(v);
  }

  // ---------------------------------------------------------------- the RIFF check

  /** `audioBuffer.slice(0, 4).toString('ascii')`: at most four characters. */
  function FirstFour(b: seq<byte>): string
  {
    AsciiText(if |b| < 4 then b else b[..4])
  }

  predicate StartsWithRiff(b: seq<byte>) {
    FirstFour(b) == "RIFF"
  }

  /** The check in terms of bytes: a buffer counts as RIFF exactly when it has
      four bytes whose low seven bits spell "RIFF", so a header is synthesised for
      every shorter buffer and for every other start. */
  lemma StartsWithRiffBytes(b: seq<byte>)
    ensures StartsWithRiff(b) <==>
      |b| >= 4 && b[0] % 128 == 0x52 && b[1] % 128 == 0x49 && b[2] % 128 == 0x46 && b[3] % 128 == 0x46
  {
    if |b| >= 4 && b[0] % 128 == 0x52 && b[1] % 128 == 0x49 && b[2] % 128 == 0x46 && b[3] % 128 == 0x46 {
      assert FirstFour(b) == "RIFF";
    }
    if StartsWithRiff(b) {
      assert |FirstFour(b)| == 4;
      assert FirstFour(b)[0] == 'R' && FirstFour(b)[1] == 'I';
      assert FirstFour(b)[2] == 'F' && FirstFour(b)[3] == 'F';
    }
  }

  /** The buffer `extractFeatures` hands to the WAV decoder. */
  function WithHeader(b: seq<byte>): seq<byte>
  {
    if StartsWithRiff(b) then b else Header(|b|) + b
  }

  /** The decoder always sees a buffer that starts with "RIFF"; a header is added
      exactly when there was none, and the input follows it unchanged. */
  lemma WithHeaderStartsWithRiff(b: seq<byte>)
    ensures StartsWithRiff(WithHeader(b))
    ensures !StartsWithRiff(b) <==> WithHeader(b) == Header(|b|) + b
    ensures StartsWithRiff(b) <==> WithHeader(b) == b
    ensures WithHeader(b)[|WithHeader(b)| - |b|..] == b
  {
    var w := Header(|b|) + b;
    assert w[..4] == AsciiBytes("RIFF");
    assert FirstFour(w) == "RIFF";
    assert |w| != |b|;
  }

  /** Adding headers is idempotent: a buffer that went through the check once
      passes through it unchanged. */
  lemma WithHeaderIdempotent(b: seq<byte>)
    ensures WithHeader(WithHeader(b)) == WithHeader(b)
  {
    WithHeaderStartsWithRiff(b);
  }

  // ---------------------------------------------------------------- writing in place

  /** `writeString(view, offset, string)`: one `setUint8` per character. */
  method WriteString(view: array<byte>, offset: nat, s: string)
    requires offset + |s| <= view.Length
    modifies view
    ensures view[..offset] == old(view[..offset])
    ensures view[offset..offset + |s|] == AsciiBytes(s)
    ensures forall j :: offset + |s| <= j < view.Length ==> view[j] == old(view[j])
  {
    for i := 0 to |s|
      invariant view[..offset] == old(view[..offset])
      invariant view[offset..offset + i] == AsciiBytes(s)[..i]
      invariant forall j :: offset + |s| <= j < view.Length ==> view[j] == old(view[j])
    {
      view[offset + i] := (s[i] as int) % 256;
      assert view[offset..offset + i + 1] == view[offset..offset + i] + [view[offset + i]];
    }
  }

  /** `DataView.setUint32(offset, v, true)` */
  method SetUint32(view: array<byte>, offset: nat, v: nat)
    requires offset + 4 <= view.Length && v < Two32
    modifies view
    ensures view[..offset] == old(view[..offset])
    ensures view[offset..offset + 4] == U32LE(v)
    ensures forall j :: offset + 4 <= j < view.Length ==> view[j] == old(view[j])
  {
    var b := U32LE(v);
    view[offset], view[offset + 1], view[offset + 2], view[offset + 3] := b[0], b[1], b[2], b[3];
  }

  /** `DataView.setUint16(offset, v, true)` */
  method SetUint16(view: array<byte>, offset: nat, v: nat)
    requires offset + 2 <= view.Length && v < 65536
    modifies view
    ensures view[..offset] == old(view[..offset])
    ensures view[offset..offset + 2] == U16LE(v)
    ensures forall j :: offset + 2 <= j < view.Length ==> view[j] == old(view[j])
  {
    var b := U16LE(v);
    view[offset], view[offset + 1] := b[0], b[1];
  }

  /** After writing `b` at the end of an established prefix `e`, the prefix is `e + b`. */
  lemma PrefixGrows(s: seq<byte>, e: seq<byte>, b: seq<byte>)
    requires |e| + |b| <= |s| && s[..|e|] == e && s[|e|..|e| + |b|] == b
    ensures s[..|e| + |b|] == e + b
  {
    assert s[..|e| + |b|] == s[..|e|] + s[|e|..|e| + |b|];
  }

  /** A prefix `p` followed by a chunk `c` fills the first |p| + |c| bytes. */
  lemma PrefixSplit(s: seq<byte>, p: seq<byte>, c: seq<byte>)
    requires |p| + |c| <= |s| && s[..|p| + |c|] == p + c
    ensures s[..|p|] == p && s[|p|..|p| + |c|] == c
  {
    assert s[..|p|] == s[..|p| + |c|][..|p|];
    assert s[|p|..|p| + |c|] == s[..|p| + |c|][|p|..];
  }

  /** The first three writes of `addWavHeaders`: the RIFF chunk header. */
  method WriteRiffChunk(view: array<byte>, n: nat)
    requires view.Length >= HeaderSize
    modifies view
    ensures view[..12] == RiffChunkHeader(n)
    ensures forall j :: 12 <= j < view.Length ==> view[j] == old(view[j])
  {
    ghost var e: seq<byte> := [];
    WriteString(view, 0, "RIFF");
    PrefixGrows(view[..], e, AsciiBytes("RIFF"));  e := e + AsciiBytes("RIFF");
    SetUint32(view, 4, (36 + n) % Two32);
    PrefixGrows(view[..], e, U32LE((36 + n) % Two32));  e := e + U32LE((36 + n) % Two32);
    WriteString(view, 8, "WAVE");
    PrefixGrows(view[..], e, AsciiBytes("WAVE"));  e := e + AsciiBytes("WAVE");
    assert view[..12] == view[..][..12];
  }

  /** The next eight writes: the `fmt ` chunk, behind the first 12 bytes. */
  method WriteFmtChunk(view: array<byte>)
    requires view.Length >= HeaderSize
    modifies view
    ensures view[..12] == old(view[..12])
    ensures view[12..36] == FmtChunk()
    ensures forall j :: 36 <= j < view.Length ==> view[j] == old(view[j])
  {
    ghost var p := view[..12];
    WriteFmtHead(view);
    ghost var head := AsciiBytes("fmt ") + U32LE(FmtChunkSize) + U16LE(FormatPcm) + U16LE(NumChannels);
    PrefixGrows(view[..], p, head);
    WriteFmtRates(view);
    ghost var rates := U32LE(SampleRate) + U32LE(SampleRate * BlockAlign) + U16LE(BlockAlign) + U16LE(BitsPerSample);
    PrefixGrows(view[..], p + head, rates);
    assert head + rates == FmtChunk();
    PrefixSplit(view[..], p, FmtChunk());
    assert view[..12] == view[..][..12];
    assert view[12..36] == view[..][12..36];
  }

  /** Tag, chunk size, format and channel count of the `fmt ` chunk. */
  method WriteFmtHead(view: array<byte>)
    requires view.Length >= HeaderSize
    modifies view
    ensures view[..12] == old(view[..12])
    ensures view[12..24] == AsciiBytes("fmt ") + U32LE(FmtChunkSize) + U16LE(FormatPcm) + U16LE(NumChannels)
    ensures forall j :: 24 <= j < view.Length ==> view[j] == old(view[j])
  {
    ghost var p := view[..12];
    ghost var e: seq<byte> := p;
    WriteString(view, 12, "fmt ");
    PrefixGrows(view[..], e, AsciiBytes("fmt "));  e := e + AsciiBytes("fmt ");
    SetUint32(view, 16, FmtChunkSize);
    PrefixGrows(view[..], e, U32LE(FmtChunkSize));  e := e + U32LE(FmtChunkSize);
    SetUint16(view, 20, FormatPcm);
    PrefixGrows(view[..], e, U16LE(FormatPcm));  e := e + U16LE(FormatPcm);
    SetUint16(view, 22, NumChannels);
    PrefixGrows(view[..], e, U16LE(NumChannels));  e := e + U16LE(NumChannels);
    PrefixSplit(view[..], p, e[12..]);
    assert view[..12] == view[..][..12];
    assert view[12..24] == view[..][12..24];
  }

  /** Sample rate, byte rate, block align and bit depth of the `fmt ` chunk. */
  method WriteFmtRates(view: array<byte>)
    requires view.Length >= HeaderSize
    modifies view
    ensures view[..24] == old(view[..24])
    ensures view[24..36] == U32LE(SampleRate) + U32LE(SampleRate * BlockAlign) + U16LE(BlockAlign) + U16LE(BitsPerSample)
    ensures forall j :: 36 <= j < view.Length ==> view[j] == old(view[j])
  {
    ghost var p := view[..24];
    ghost var e: seq<byte> := p;
    SetUint32(view, 24, SampleRate);
    PrefixGrows(view[..], e, U32LE(SampleRate));  e := e + U32LE(SampleRate);
    SetUint32(view, 28, SampleRate * BlockAlign);
    PrefixGrows(view[..], e, U32LE(SampleRate * BlockAlign));  e := e + U32LE(SampleRate * BlockAlign);
    SetUint16(view, 32, BlockAlign);
    PrefixGrows(view[..], e, U16LE(BlockAlign));  e := e + U16LE(BlockAlign);
    SetUint16(view, 34, BitsPerSample);
    PrefixGrows(view[..], e, U16LE(BitsPerSample));  e := e + U16LE(BitsPerSample);
    PrefixSplit(view[..], p, e[24..]);
    assert view[..24] == view[..][..24];
    assert view[24..36] == view[..][24..36];
  }

  /** The last two writes: the `data` chunk header, behind the first 36 bytes. */
  method WriteDataChunk(view: array<byte>, n: nat)
    requires view.Length >= HeaderSize
    modifies view
    ensures view[..36] == old(view[..36])
    ensures view[36..44] == DataChunkHeader(n)
    ensures forall j :: 44 <= j < view.Length ==> view[j] == old(view[j])
  {
    ghost var p := view[..36];
    ghost var e: seq<byte> := p;
    WriteString(view, 36, "data");
    PrefixGrows(view[..], e, AsciiBytes("data"));  e := e + AsciiBytes("data");
    SetUint32(view, 40, n % Two32);
    PrefixGrows(view[..], e, U32LE(n % Two32));  e := e + U32LE(n % Two32);
    PrefixSplit(view[..], p, DataChunkHeader(n));
    assert view[..36] == view[..][..36];
    assert view[36..44] == view[..][36..44];
  }

  /** The thirteen header writes of `addWavHeaders`, in the order the source
      makes them: each chunk lands right after the previous one. */
  method WriteHeader(view: array<byte>, n: nat)
    requires view.Length >= HeaderSize
    modifies view
    ensures view[..HeaderSize] == Header(n)
    ensures view[HeaderSize..] == old(view[HeaderSize..])
  {
    WriteRiffChunk(view, n);
    WriteFmtChunk(view);
    PrefixGrows(view[..], RiffChunkHeader(n), FmtChunk());
    WriteDataChunk(view, n);
    PrefixGrows(view[..], RiffChunkHeader(n) + FmtChunk(), DataChunkHeader(n));
    assert view[..HeaderSize] == view[..][..HeaderSize];
    assert view[HeaderSize..] == old(view[HeaderSize..]);
  }

  /** `addWavHeaders`: a zeroed buffer of 44 + n bytes, the header written
      through a DataView, then the input copied to offset 44. */
  method AddWavHeaders(data: seq<byte>) returns (out: seq<byte>)
    ensures out == Header(|data|) + data
    ensures |out| == HeaderSize + |data| && out[HeaderSize..] == data
    ensures ParseHeader(out)
         == Some(WavInfo((36 + |data|) % Two32, 16, 1, 1, 16000, 32000, 2, 16, |data| % Two32))
  {
    var n := |data|;
    var view := new byte[HeaderSize + n];
    WriteHeader(view, n);
    // wavData.set(new Uint8Array(audioBuffer), 44)
    for i := 0 to n
      invariant view[..HeaderSize] == Header(n)
      invariant view[HeaderSize..HeaderSize + i] == data[..i]
    {
      view[HeaderSize + i] := data[i];
      assert view[HeaderSize..HeaderSize + i + 1] == view[HeaderSize..HeaderSize + i] + [data[i]];
      assert data[..i + 1] == data[..i] + [data[i]];
    }
    out := view[..];
    assert out == out[..HeaderSize] + out[HeaderSize..];
    ParseHeaderOfSynthesised(data);
  }
}
