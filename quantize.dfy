/** Quantisation of one sample into a signed PCM word: the clamp to
    [-1, 1], the asymmetric scale (0x8000 below zero, 0x7FFF at or above
    it, and likewise for 24 and 32 bits), and the rounding each bit depth
    applies before the bytes are written. */
module Quantize {
  import opened Bytes

  function Min(a: real, b: real): real { if a <= b then a else b }

  function Max(a: real, b: real): real { if a >= b then a else b }

  /** `Math.max(-1, Math.min(1, x))`. */
  function Clamp(x: real): (s: real)
    ensures -1.0 <= s <= 1.0
    ensures -1.0 <= x <= 1.0 ==> s == x
    ensures x > 1.0 ==> s == 1.0
    ensures x < -1.0 ==> s == -1.0
  {
    Max(-1.0, Min(1.0, x))
  }

  /** Truncation toward zero, which `setInt16` and `setInt32` apply to a
      finite number before storing it. */
  function Trunc(x: real): (n: int)
    ensures 0.0 <= x ==> 0 <= n && n as real <= x < n as real + 1.0
    ensures x < 0.0 ==> n <= 0 && n as real - 1.0 < x <= n as real
  {
    if x >= 0.0 then x.Floor else -((-x).Floor)
  }

  /** `Math.round`: the nearest integer, a half rounded up toward +infinity. */
  function Round(x: real): (n: int)
    ensures x - 0.5 < n as real <= x + 0.5
  {
    (x + 0.5).Floor
  }

  /** The value the 16-bit branch hands to `setInt16` after clamping. */
  function Scaled16(x: real): real
  {
    var s := Clamp(x);
    if s < 0.0 then s * 32768.0 else s * 32767.0
  }

  /** The 16-bit word stored for sample `x`. */
  function Word16(x: real): (w: int)
    ensures -0x8000 <= w < 0x8000
    ensures x >= 1.0 ==> w == 0x7FFF
    ensures x <= -1.0 ==> w == -0x8000
    ensures (w < 0) == (x <= -1.0 / 32768.0)
  {
    Trunc(Scaled16(x))
  }

  /** The rounded 24-bit value `val` of the 24-bit branch. */
  function Word24(x: real): (w: int)
    ensures -0x80_0000 <= w < 0x80_0000
    ensures x >= 1.0 ==> w == 0x7F_FFFF
    ensures x <= -1.0 ==> w == -0x80_0000
  {
    var s := Clamp(x);
    Round(if s < 0.0 then s * 8388608.0 else s * 8388607.0)
  }

  /** The 32-bit word stored by `setInt32` for sample `x`. */
  function Word32(x: real): (w: int)
    ensures -0x8000_0000 <= w < 0x8000_0000
    ensures x >= 1.0 ==> w == 0x7FFF_FFFF
    ensures x <= -1.0 ==> w == -0x8000_0000
  {
    var s := Clamp(x);
    Trunc(if s < 0.0 then s * 2147483648.0 else s * 2147483647.0)
  }

  /** The three bit depths for which the encoder writes sample data. */
  predicate Supported(bitDepth: int)
  {
    bitDepth == 16 || bitDepth == 24 || bitDepth == 32
  }

  /** The bytes written for one sample at a supported bit depth: the
      quantised word, little-endian, in `bitDepth / 8` bytes. */
  function SampleBytes(bitDepth: int, x: real): (r: seq<Byte>)
    requires Supported(bitDepth)
    ensures |r| == bitDepth / 8
  {
    if bitDepth == 16 then Uint16LE(Word16(x))
    else if bitDepth == 24 then Int24LE(Word24(x))
    else Uint32LE(Word32(x))
  }

  /** The bytes of a sample read back, as a signed little-endian word of
      the same depth, as the word the sample was quantised to. */
  lemma SampleBytesDecode(bitDepth: int, x: real)
    requires Supported(bitDepth)
    ensures bitDepth == 16 ==> DecodeInt16(SampleBytes(bitDepth, x)) == Word16(x)
    ensures bitDepth == 24 ==> DecodeInt24(SampleBytes(bitDepth, x)) == Word24(x)
    ensures bitDepth == 32 ==> DecodeInt32(SampleBytes(bitDepth, x)) == Word32(x)
  {
    if bitDepth == 16 {
      Int16RoundTrip(Word16(x));
    } else if bitDepth == 24 {
      Int24RoundTrip(Word24(x));
    } else {
      Int32RoundTrip(Word32(x));
    }
  }

  /** Silence quantises to all-zero bytes at every supported depth. */
  lemma SilentSampleBytes(bitDepth: int)
    requires Supported(bitDepth)
    ensures forall j :: 0 <= j < bitDepth / 8 ==> SampleBytes(bitDepth, 0.0)[j] == 0
  {
    assert Word16(0.0) == 0 && Word24(0.0) == 0 && Word32(0.0) == 0;
  }
}
