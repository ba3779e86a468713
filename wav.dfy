/** The WAV encoder `toWav`: interleave, optionally normalise, write the
    44-byte canonical header (a RIFF "WAVE" form with a 16-byte "fmt "
    chunk carrying format tag 1, PCM, then a "data" chunk) and the
    quantised samples into a zero-filled byte buffer. */
module Wav {
  import opened Bytes
  import opened Quantize
  import opened Frames

  /** The four chunk tags, as the bytes `charCodeAt` yields for them
      (`TagBytes` proves each equals `Ascii` of its string). */
  const RIFF: seq<Byte> := [0x52, 0x49, 0x46, 0x46]
  const WAVE: seq<Byte> := [0x57, 0x41, 0x56, 0x45]
  const FMT: seq<Byte> := [0x66, 0x6D, 0x74, 0x20]
  const DATA: seq<Byte> := [0x64, 0x61, 0x74, 0x61]

  /** The tag constants are the encoder's `ws` of "RIFF", "WAVE",
      "fmt " and "data". */
  lemma TagBytes()
    ensures RIFF == Ascii("RIFF") && WAVE == Ascii("WAVE")
    ensures FMT == Ascii("fmt ") && DATA == Ascii("data")
  {
  }

  /** The 44 header bytes, field by field as the encoder writes them; `ds`
      is the size of the data chunk. */
  function Header(sampleRate: int, channels: nat, bitDepth: nat, ds: nat): (h: seq<Byte>)
    ensures |h| == 44
  {
    var bps := bitDepth / 8;
    var ba := channels * bps;
    var br := sampleRate * ba;
    RIFF + Uint32LE(36 + ds) + WAVE + FMT +
    Uint32LE(16) + Uint16LE(1) + Uint16LE(channels) + Uint32LE(sampleRate) +
    Uint32LE(br) + Uint16LE(ba) + Uint16LE(bitDepth) + DATA + Uint32LE(ds)
  }

  /** The RIFF chunk descriptor: the "RIFF" tag, the chunk size `36 + ds`
      (modulo 2^32, as `setUint32` wraps it) and the "WAVE" format tag. */
  lemma RiffFields(sampleRate: int, channels: nat, bitDepth: nat, ds: nat)
    ensures var h := Header(sampleRate, channels, bitDepth, ds);
      h[0..4] == RIFF && h[8..12] == WAVE &&
      DecodeUint32(h[4..8]) == (36 + ds) % TWO32
  {
    var h := Header(sampleRate, channels, bitDepth, ds);
    assert h[4..8] == Uint32LE(36 + ds);
    Uint32RoundTrip(36 + ds);
  }

  /** The "fmt " sub-chunk: size 16, format tag 1 (PCM), the channel count,
      the sample rate, the byte rate `sampleRate * blockAlign`, the block
      align `channels * (bitDepth / 8)` and the bit depth, each modulo the
      width of its field. */
  lemma FmtFields(sampleRate: int, channels: nat, bitDepth: nat, ds: nat)
    ensures var h := Header(sampleRate, channels, bitDepth, ds);
      var blockAlign := channels * (bitDepth / 8);
      h[12..16] == FMT &&
      DecodeUint32(h[16..20]) == 16 &&
      DecodeUint16(h[20..22]) == 1 &&
      DecodeUint16(h[22..24]) == channels % TWO16 &&
      DecodeUint32(h[24..28]) == sampleRate % TWO32 &&
      DecodeUint32(h[28..32]) == (sampleRate * blockAlign) % TWO32 &&
      DecodeUint16(h[32..34]) == blockAlign % TWO16 &&
      DecodeUint16(h[34..36]) == bitDepth % TWO16
  {
    var ba := channels * (bitDepth / 8);
    var h := Header(sampleRate, channels, bitDepth, ds);
    assert h[16..20] == Uint32LE(16);
    assert h[20..22] == Uint16LE(1);
    assert h[22..24] == Uint16LE(channels);
    assert h[24..28] == Uint32LE(sampleRate);
    assert h[28..32] == Uint32LE(sampleRate * ba);
    assert h[32..34] == Uint16LE(ba);
    assert h[34..36] == Uint16LE(bitDepth);
    Uint32RoundTrip(16);
    Uint16RoundTrip(1);
    Uint16RoundTrip(channels);
    Uint32RoundTrip(sampleRate);
    Uint32RoundTrip(sampleRate * ba);
    Uint16RoundTrip(ba);
    Uint16RoundTrip(bitDepth);
  }

  /** The "data" sub-chunk header: the tag and the data size `ds`. */
  lemma DataFields(sampleRate: int, channels: nat, bitDepth: nat, ds: nat)
    ensures var h := Header(sampleRate, channels, bitDepth, ds);
      h[36..40] == DATA && DecodeUint32(h[40..44]) == ds % TWO32
  {
    var h := Header(sampleRate, channels, bitDepth, ds);
    assert h[40..44] == Uint32LE(ds);
    Uint32RoundTrip(ds);
  }

  /** The quantised bytes of `s`, sample after sample: `bitDepth / 8`
      bytes per sample. */
  function Encoded(s: seq<real>, bitDepth: int): (r: seq<Byte>)
    requires Supported(bitDepth)
    ensures |r| == |s| * (bitDepth / 8)
  {
    if s == [] then []
    else
      var w := bitDepth / 8;
      assert (|s| - 1) * w + w == |s| * w;
      Encoded(s[..|s| - 1], bitDepth) + SampleBytes(bitDepth, s[|s| - 1])
  }

  /** The encoding of a prefix of the samples is a prefix of the encoding. */
  lemma {:induction false} EncodedPrefix(s: seq<real>, bitDepth: int, j: nat)
    requires Supported(bitDepth) && j <= |s|
    ensures |Encoded(s[..j], bitDepth)| <= |Encoded(s, bitDepth)|
    ensures Encoded(s, bitDepth)[..|Encoded(s[..j], bitDepth)|] == Encoded(s[..j], bitDepth)
    decreases |s| - j
  {
    if j < |s| {
      EncodedPrefix(s, bitDepth, j + 1);
      EncodedStep(s, bitDepth, j);
      var e, m := Encoded(s, bitDepth), Encoded(s[..j], bitDepth);
      var n := |Encoded(s[..j + 1], bitDepth)|;
      assert e[..|m|] == e[..n][..|m|];
    } else {
      assert s[..j] == s;
    }
  }

  /** The encoded data has `bitDepth / 8` bytes per sample, and sample `k`
      occupies bytes `k * (bitDepth / 8)` up to the next sample's. */
  lemma EncodedLayout(s: seq<real>, bitDepth: int, k: nat)
    requires Supported(bitDepth) && k < |s|
    ensures |Encoded(s, bitDepth)| == |s| * (bitDepth / 8)
    ensures (k + 1) * (bitDepth / 8) <= |Encoded(s, bitDepth)|
    ensures Encoded(s, bitDepth)[k * (bitDepth / 8)..(k + 1) * (bitDepth / 8)] == SampleBytes(bitDepth, s[k])
  {
    var w := bitDepth / 8;
    MulLe(k + 1, |s|, w);
    EncodedPrefix(s, bitDepth, k + 1);
    EncodedStep(s, bitDepth, k);
    var e := Encoded(s, bitDepth);
    assert e[k * w..(k + 1) * w] == e[..(k + 1) * w][k * w..];
  }

  /** Encoding one more sample appends that sample's bytes. */
  lemma EncodedStep(s: seq<real>, bitDepth: int, i: nat)
    requires Supported(bitDepth) && i < |s|
    ensures Encoded(s[..i + 1], bitDepth) == Encoded(s[..i], bitDepth) + SampleBytes(bitDepth, s[i])
  {
    assert s[..i + 1][..i] == s[..i];
  }

  /** The data chunk: the quantised samples at 16, 24 or 32 bits, and at
      any other depth the zero bytes the fresh buffer was created with. */
  function DataRegion(s: seq<real>, bitDepth: nat): (r: seq<Byte>)
    ensures |r| == |s| * (bitDepth / 8)
  {
    if Supported(bitDepth) then Encoded(s, bitDepth)
    else seq(|s| * (bitDepth / 8), _ => 0)
  }

  /** The bytes `toWav` produces from its prepared (interleaved and, if
      asked for, normalised) samples: header, then data chunk. */
  function EncodeWav(samples: seq<real>, sampleRate: int, channels: nat, bitDepth: nat): (r: seq<Byte>)
    ensures |r| == 44 + |samples| * (bitDepth / 8)
  {
    Header(sampleRate, channels, bitDepth, |samples| * (bitDepth / 8)) + DataRegion(samples, bitDepth)
  }

  /** The whole file `toWav` produces from per-channel buffers. */
  function WavFile(buffers: seq<seq<real>>, sampleRate: int, channels: nat, bitDepth: nat, normalize: bool): (r: seq<Byte>)
    requires Rectangular(buffers, channels)
    ensures |r| == 44 + |buffers[0]| * channels * (bitDepth / 8)
  {
    EncodeWav(Normalized(Interleaved(buffers, channels), normalize), sampleRate, channels, bitDepth)
  }

  /** One field of the header written after the fields before it; the
      bytes past the header are untouched. */
  method PutField(buf: array<Byte>, o: nat, bytes: seq<Byte>, ghost before: seq<Byte>)
    requires o + |bytes| <= 44 <= buf.Length
    requires buf[..o] == before
    modifies buf
    ensures buf[..o + |bytes|] == before + bytes
    ensures buf[o + |bytes|..44] == old(buf[o + |bytes|..44])
    ensures buf[44..] == old(buf[44..])
  {
    SetBytes(buf, o, bytes);
    assert buf[o + |bytes|..44] == buf[o + |bytes|..][..44 - (o + |bytes|)];
    assert buf[44..] == buf[o + |bytes|..][44 - (o + |bytes|)..];
  }

  /** Writes the header fields in the encoder's order: `ws(0, 'RIFF')`,
      `setUint32(4, 36 + ds)`, ..., `setUint32(40, ds)`. */
  method WriteHeader(buf: array<Byte>, sampleRate: int, channels: nat, bitDepth: nat, ds: nat)
    requires 44 <= buf.Length
    modifies buf
    ensures buf[..44] == Header(sampleRate, channels, bitDepth, ds)
    ensures buf[44..] == old(buf[44..])
  {
    var bps := bitDepth / 8;
    var ba := channels * bps;
    var br := sampleRate * ba;
    // `written` is the header so far, built in the order of the writes.
    ghost var written: seq<Byte> := [];
    PutField(buf, 0, RIFF, written);
    written := written + RIFF;
    PutField(buf, 4, Uint32LE(36 + ds), written);
    written := written + Uint32LE(36 + ds);
    PutField(buf, 8, WAVE, written);
    written := written + WAVE;
    PutField(buf, 12, FMT, written);
    written := written + FMT;
    PutField(buf, 16, Uint32LE(16), written);
    written := written + Uint32LE(16);
    PutField(buf, 20, Uint16LE(1), written);
    written := written + Uint16LE(1);
    PutField(buf, 22, Uint16LE(channels), written);
    written := written + Uint16LE(channels);
    PutField(buf, 24, Uint32LE(sampleRate), written);
    written := written + Uint32LE(sampleRate);
    PutField(buf, 28, Uint32LE(br), written);
    written := written + Uint32LE(br);
    PutField(buf, 32, Uint16LE(ba), written);
    written := written + Uint16LE(ba);
    PutField(buf, 34, Uint16LE(bitDepth), written);
    written := written + Uint16LE(bitDepth);
    PutField(buf, 36, DATA, written);
    written := written + DATA;
    PutField(buf, 40, Uint32LE(ds), written);
    written := written + Uint32LE(ds);
    assert buf[..44] == written;
    assert written == Header(sampleRate, channels, bitDepth, ds);
  }

  /** The sample loop of a supported bit depth: clamp, quantise and store
      each sample at the running offset `o`, which starts at 44 and
      advances by `bitDepth / 8`. */
  method WriteSamples(buf: array<Byte>, samples: array<real>, bitDepth: nat)
    requires Supported(bitDepth)
    requires buf.Length == 44 + samples.Length * (bitDepth / 8)
    modifies buf
    ensures buf[..] == old(buf[..44]) + Encoded(samples[..], bitDepth)
  {
    ghost var s := samples[..];
    ghost var header := buf[..44];
    var w := bitDepth / 8;
    var o := 44;
    var i := 0;
    while i < samples.Length
      invariant 0 <= i <= samples.Length
      invariant o == 44 + |Encoded(s[..i], bitDepth)| <= buf.Length
      invariant buf[..o] == header + Encoded(s[..i], bitDepth)
    {
      var bytes := SampleBytes(bitDepth, samples[i]);
      ExtendEncoded(header, s, bitDepth, i);
      SetBytes(buf, o, bytes);
      i, o := i + 1, o + w;
    }
    assert s[..i] == s;
  }

  /** One more sample's bytes after the header and the samples before it
      give the header and the encoding of one sample more, which still fits
      in the file. */
  lemma ExtendEncoded(header: seq<Byte>, s: seq<real>, bitDepth: int, i: nat)
    requires Supported(bitDepth) && i < |s|
    ensures |header + Encoded(s[..i + 1], bitDepth)| <= |header| + |s| * (bitDepth / 8)
    ensures (header + Encoded(s[..i], bitDepth)) + SampleBytes(bitDepth, s[i]) == header + Encoded(s[..i + 1], bitDepth)
  {
    EncodedStep(s, bitDepth, i);
    MulLe(i + 1, |s|, bitDepth / 8);
    AppendAssoc(header, Encoded(s[..i], bitDepth), SampleBytes(bitDepth, s[i]));
  }

  /** Fills a zeroed buffer of the right size with the header and, for a
      supported depth, the samples; any other depth leaves the data bytes
      zero. */
  method WriteWav(buf: array<Byte>, samples: array<real>, sampleRate: int, channels: nat, bitDepth: nat)
    requires buf.Length == 44 + samples.Length * (bitDepth / 8)
    requires forall j :: 0 <= j < buf.Length ==> buf[j] == 0
    modifies buf
    ensures buf[..] == EncodeWav(samples[..], sampleRate, channels, bitDepth)
  {
    ghost var s := samples[..];
    var ds := samples.Length * (bitDepth / 8);
    assert buf[44..] == seq(ds, _ => 0);
    WriteHeader(buf, sampleRate, channels, bitDepth, ds);
    if Supported(bitDepth) {
      WriteSamples(buf, samples, bitDepth);
    } else {
      assert buf[..] == buf[..44] + buf[44..];
    }
  }

  /** The encoder end to end. */
  method ToWav(buffers: seq<seq<real>>, sampleRate: int, channels: nat, bitDepth: nat, normalize: bool)
    returns (wav: array<Byte>)
    requires Rectangular(buffers, channels)
    requires bitDepth % 8 == 0
    ensures fresh(wav)
    ensures wav[..] == WavFile(buffers, sampleRate, channels, bitDepth, normalize)
  {
    var samples := InterleaveChannels(buffers, channels);
    Normalize(samples, normalize);
    var buf := new Byte[44 + samples.Length * (bitDepth / 8)](_ => 0);
    WriteWav(buf, samples, sampleRate, channels, bitDepth);
    wav := buf;
  }

  /** A file is the 44-byte header followed by `bitDepth / 8` bytes per
      sample, and its header announces that data size. */
  lemma WavLayout(samples: seq<real>, sampleRate: int, channels: nat, bitDepth: nat)
    ensures var f := EncodeWav(samples, sampleRate, channels, bitDepth);
      var ds := |samples| * (bitDepth / 8);
      |f| == 44 + ds && f[..44] == Header(sampleRate, channels, bitDepth, ds)
  {
  }

  /** Appending in two steps is appending once. */
  lemma AppendAssoc(a: seq<Byte>, b: seq<Byte>, c: seq<Byte>)
    ensures a + (b + c) == (a + b) + c
  {
  }

  /** A slice of the data chunk, seen through the whole file. */
  lemma AfterHeader(h: seq<Byte>, e: seq<Byte>, a: nat, b: nat)
    requires |h| == 44 && a <= b <= |e|
    ensures (h + e)[44 + a..44 + b] == e[a..b]
  {
  }

  /** At a supported bit depth sample `k` is stored at offset
      `44 + k * (bitDepth / 8)`, as the bytes of its quantised word. */
  lemma WavSampleAt(samples: seq<real>, sampleRate: int, channels: nat, bitDepth: nat, k: nat)
    requires Supported(bitDepth) && k < |samples|
    ensures var f := EncodeWav(samples, sampleRate, channels, bitDepth);
      var w := bitDepth / 8;
      44 + (k + 1) * w <= |f| &&
      f[44 + k * w..44 + (k + 1) * w] == SampleBytes(bitDepth, samples[k])
  {
    var w := bitDepth / 8;
    EncodedLayout(samples, bitDepth, k);
    AfterHeader(Header(sampleRate, channels, bitDepth, |samples| * w), Encoded(samples, bitDepth), k * w, (k + 1) * w);
  }

  /** At any bit depth other than 16, 24 and 32 the header is written but the
      data chunk keeps the zeros of the fresh buffer. */
  lemma WavUnsupportedSilent(samples: seq<real>, sampleRate: int, channels: nat, bitDepth: nat)
    requires !Supported(bitDepth)
    ensures var f := EncodeWav(samples, sampleRate, channels, bitDepth);
      |f| == 44 + |samples| * (bitDepth / 8) &&
      forall j :: 44 <= j < |f| ==> f[j] == 0
  {
    var h := Header(sampleRate, channels, bitDepth, |samples| * (bitDepth / 8));
    var d := DataRegion(samples, bitDepth);
    assert d == seq(|samples| * (bitDepth / 8), _ => 0);
    assert EncodeWav(samples, sampleRate, channels, bitDepth) == h + d;
    forall j | 44 <= j < |h + d|
      ensures (h + d)[j] == 0
    {
      assert (h + d)[j] == d[j - 44];
    }
  }

  /** Silence encodes to zero bytes. */
  lemma {:induction false} EncodedSilent(s: seq<real>, bitDepth: int)
    requires Supported(bitDepth)
    requires forall i :: 0 <= i < |s| ==> s[i] == 0.0
    ensures forall j :: 0 <= j < |Encoded(s, bitDepth)| ==> Encoded(s, bitDepth)[j] == 0
  {
    if s != [] {
      EncodedSilent(s[..|s| - 1], bitDepth);
      SilentSampleBytes(bitDepth);
    }
  }

  /** Silent buffers give a data chunk of zero bytes at every bit depth,
      with or without normalisation. */
  lemma SilentWav(buffers: seq<seq<real>>, sampleRate: int, channels: nat, bitDepth: nat, normalize: bool)
    requires Rectangular(buffers, channels)
    requires forall c, i :: 0 <= c < channels && 0 <= i < |buffers[c]| ==> buffers[c][i] == 0.0
    ensures var f := WavFile(buffers, sampleRate, channels, bitDepth, normalize);
      |f| == 44 + |buffers[0]| * channels * (bitDepth / 8) &&
      forall j :: 44 <= j < |f| ==> f[j] == 0
  {
    var x := Interleaved(buffers, channels);
    forall k | 0 <= k < |x|
      ensures x[k] == 0.0
    {
      SlotFrame(|buffers[0]|, channels, k);
    }
    NormalizedIdentity(x, normalize);
    WavLayout(x, sampleRate, channels, bitDepth);
    if Supported(bitDepth) {
      EncodedSilent(x, bitDepth);
    }
  }
}
