/** Bytes as the WAV encoder stores them through a DataView over an
    ArrayBuffer: little-endian encodings of 16-, 24- and 32-bit words, the
    decoders a reader of the file applies, and the in-place byte write. */
module Bytes {

  /** One byte of an ArrayBuffer. */
  type Byte = b: int | 0 <= b < 256

  const TWO16: int := 0x1_0000
  const TWO24: int := 0x100_0000
  const TWO32: int := 0x1_0000_0000

  /** The two bytes `DataView.setUint16(o, v, true)` stores for an integer
      `v`: `v` reduced modulo 2^16 (ToUint16), low byte first. For an integer
      `setInt16` stores the same two bytes. */
  function Uint16LE(v: int): (r: seq<Byte>)
    ensures |r| == 2
    ensures r[0] as int + 0x100 * (r[1] as int) == v % TWO16
  {
    var u := v % TWO16;
    assert u == (u / 0x100) * 0x100 + u % 0x100;
    [u % 0x100, u / 0x100]
  }

  /** The four bytes `DataView.setUint32(o, v, true)` stores for an integer
      `v`: `v` reduced modulo 2^32 (ToUint32), low byte first. For an integer
      `setInt32` stores the same four bytes. */
  function Uint32LE(v: int): (r: seq<Byte>)
    ensures |r| == 4
    ensures r[0] as int + 0x100 * (r[1] as int) + 0x1_0000 * (r[2] as int) + 0x100_0000 * (r[3] as int) == v % TWO32
  {
    var u := v % TWO32;
    var q1, q2, q3 := u / 0x100, u / 0x1_0000, u / 0x100_0000;
    assert u == q1 * 0x100 + u % 0x100;
    assert q1 == q2 * 0x100 + q1 % 0x100 by { assert q2 == q1 / 0x100; }
    assert q2 == q3 * 0x100 + q2 % 0x100 by { assert q3 == q2 / 0x100; }
    [u % 0x100, q1 % 0x100, q2 % 0x100, q3]
  }

  /** The three bytes the 24-bit branch writes with `setUint8`, low byte
      first: `val & 0xFF`, `(val >> 8) & 0xFF` and `(val >> 16) & 0xFF`.
      On a two's-complement integer `x & 0xFF` is `x` modulo 256 and the
      arithmetic shift `x >> k` is floor division by 2^k, which is what
      Dafny's `/` and `%` compute for a positive divisor. */
  function Int24LE(val: int): (r: seq<Byte>)
    ensures |r| == 3
    ensures r[0] as int + 0x100 * (r[1] as int) + 0x1_0000 * (r[2] as int) == val % TWO24
  {
    var q1, q2 := val / 0x100, val / 0x1_0000;
    assert val == q1 * 0x100 + val % 0x100;
    assert q1 == q2 * 0x100 + q1 % 0x100 by { assert q2 == q1 / 0x100; }
    assert q2 == (q2 / 0x100) * 0x100 + q2 % 0x100;
    [val % 0x100, q1 % 0x100, q2 % 0x100]
  }

  /** The bytes `charCodeAt` gives for the characters of `s`, each stored
      with `setUint8` and so reduced modulo 256. */
  function Ascii(s: string): (r: seq<Byte>)
    ensures |r| == |s|
    ensures forall i :: 0 <= i < |s| && s[i] as int < 256 ==> r[i] == s[i] as int
  {
    seq(|s|, i requires 0 <= i < |s| => (s[i] as int) % 0x100)
  }

  /** Reading an unsigned little-endian 16-bit field. */
  function DecodeUint16(b: seq<Byte>): (r: int)
    requires |b| == 2
    ensures 0 <= r < TWO16
  {
    b[0] as int + 0x100 * (b[1] as int)
  }

  /** Reading an unsigned little-endian 32-bit field. */
  function DecodeUint32(b: seq<Byte>): (r: int)
    requires |b| == 4
    ensures 0 <= r < TWO32
  {
    b[0] as int + 0x100 * (b[1] as int) + 0x1_0000 * (b[2] as int) + 0x100_0000 * (b[3] as int)
  }

  /** Reading a signed (two's-complement) little-endian 16-bit sample. */
  function DecodeInt16(b: seq<Byte>): (r: int)
    requires |b| == 2
    ensures -0x8000 <= r < 0x8000
  {
    var u := DecodeUint16(b);
    if u >= 0x8000 then u - TWO16 else u
  }

  /** Reading a signed (two's-complement) little-endian 24-bit sample. */
  function DecodeInt24(b: seq<Byte>): (r: int)
    requires |b| == 3
    ensures -0x80_0000 <= r < 0x80_0000
  {
    var u := b[0] as int + 0x100 * (b[1] as int) + 0x1_0000 * (b[2] as int);
    if u >= 0x80_0000 then u - TWO24 else u
  }

  /** Reading a signed (two's-complement) little-endian 32-bit sample. */
  function DecodeInt32(b: seq<Byte>): (r: int)
    requires |b| == 4
    ensures -0x8000_0000 <= r < 0x8000_0000
  {
    var u := DecodeUint32(b);
    if u >= 0x8000_0000 then u - TWO32 else u
  }

  /** A 16-bit field reads back as the value written, modulo 2^16. */
  lemma Uint16RoundTrip(v: int)
    ensures DecodeUint16(Uint16LE(v)) == v % TWO16
  {
  }

  /** A 32-bit field reads back as the value written, modulo 2^32. */
  lemma Uint32RoundTrip(v: int)
    ensures DecodeUint32(Uint32LE(v)) == v % TWO32
  {
  }

  /** A 16-bit sample in range reads back exactly. */
  lemma Int16RoundTrip(v: int)
    requires -0x8000 <= v < 0x8000
    ensures DecodeInt16(Uint16LE(v)) == v
  {
    Uint16RoundTrip(v);
  }

  /** A 32-bit sample in range reads back exactly. */
  lemma Int32RoundTrip(v: int)
    requires -0x8000_0000 <= v < 0x8000_0000
    ensures DecodeInt32(Uint32LE(v)) == v
  {
    Uint32RoundTrip(v);
  }

  /** The three bytes of the 24-bit branch read back, as a signed 24-bit
      little-endian word, as the value that was split. */
  lemma Int24RoundTrip(val: int)
    requires -0x80_0000 <= val < 0x80_0000
    ensures DecodeInt24(Int24LE(val)) == val
  {
  }

  /** `DataView` writes of `bytes` at offset `o`, one `setUint8` per byte.
      The bytes before `o` and after the written run are unchanged. */
  method SetBytes(buf: array<Byte>, o: nat, bytes: seq<Byte>)
    requires o + |bytes| <= buf.Length
    modifies buf
    ensures buf[..o + |bytes|] == old(buf[..o]) + bytes
    ensures buf[o + |bytes|..] == old(buf[o + |bytes|..])
  {
    var i := 0;
    while i < |bytes|
      invariant 0 <= i <= |bytes|
      invariant buf[..o + i] == old(buf[..o]) + bytes[..i]
      invariant buf[o + i..] == old(buf[o + i..])
    {
      buf[o + i] := bytes[i];
      i := i + 1;
    }
  }
}
