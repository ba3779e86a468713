/** The first two stages of the WAV encoder: interleaving the per-channel
    buffers into one frame-major sample array, and optional peak
    normalisation of that array in place. */
module Frames {

  /** What the encoder needs of its channel buffers: there is a first buffer
      (its length is the frame count), a buffer for each of the `channels`
      channels, and every one of those as long as the first. */
  predicate Rectangular(buffers: seq<seq<real>>, channels: nat)
  {
    0 < |buffers| && channels <= |buffers| &&
    forall c :: 0 <= c < channels ==> |buffers[c]| == |buffers[0]|
  }

  /** Multiplying both sides of `a <= b` by a non-negative `c`. */
  lemma MulLe(a: int, b: int, c: int)
    requires 0 <= c
    ensures a <= b ==> a * c <= b * c
    ensures c == 0 ==> a * c == 0
  {
    var d := b - a;
    assert b * c == a * c + d * c;
  }

  /** A non-zero multiple of a positive `m` is at least `m` away from zero. */
  lemma MulAway(d: int, m: int)
    requires 0 < m
    ensures 1 <= d ==> m <= d * m
    ensures d <= -1 ==> d * m <= -m
  {
    if 1 <= d { MulLe(1, d, m); }
    if d <= -1 { MulLe(d, -1, m); }
  }

  /** Euclidean division by a positive `m` has a unique quotient and
      remainder. */
  lemma DivModUnique(k: int, m: int, q: int, r: int)
    requires 0 < m && 0 <= r < m && k == q * m + r
    ensures k / m == q && k % m == r
  {
    var q', r' := k / m, k % m;
    assert (q' - q) * m == r - r';
    MulAway(q' - q, m);
  }

  /** The index of channel `c` of frame `i` in the interleaved array,
      counted frame by frame: each earlier frame takes `channels` slots. */
  function Slot(i: nat, c: nat, channels: nat): (k: nat)
  {
    if i == 0 then c else Slot(i - 1, c, channels) + channels
  }

  /** The slot is `i * channels + c`, the index the encoder computes. */
  lemma {:induction false} SlotIndex(i: nat, c: nat, channels: nat)
    ensures Slot(i, c, channels) == i * channels + c
  {
    if i > 0 {
      SlotIndex(i - 1, c, channels);
      assert (i - 1) * channels + channels == i * channels;
    }
  }

  /** Frame index arithmetic: slot `i * channels + c` is below
      `len * channels` and divides back into frame `i`, channel `c`. */
  lemma FrameSlot(len: nat, channels: nat, i: nat, c: nat)
    requires i < len && c < channels
    ensures Slot(i, c, channels) == i * channels + c
    ensures Slot(i, c, channels) < len * channels
    ensures Slot(i, c, channels) / channels == i
    ensures Slot(i, c, channels) % channels == c
  {
    SlotIndex(i, c, channels);
    MulLe(i + 1, len, channels);
    DivModUnique(i * channels + c, channels, i, c);
  }

  /** Every slot below `len * channels` is some pair (frame, channel). */
  lemma SlotFrame(len: nat, channels: nat, k: nat)
    requires k < len * channels
    ensures 0 < channels && k / channels < len
    ensures Slot(k / channels, k % channels, channels) == k
  {
    MulLe(len, 0, channels);
    var q := k / channels;
    MulLe(len, q, channels);
    SlotIndex(q, k % channels, channels);
  }

  /** Two (frame, channel) pairs name the same slot exactly when they are
      the same pair. */
  lemma SlotInjective(channels: nat, i: nat, c: nat, i': nat, c': nat)
    requires c < channels && c' < channels
    ensures Slot(i, c, channels) == Slot(i', c', channels) <==> i == i' && c == c'
  {
    FrameSlot(i + 1, channels, i, c);
    FrameSlot(i' + 1, channels, i', c');
  }

  /** The interleaved samples, slot by slot: slot `k` holds channel
      `k % channels` of frame `k / channels`. */
  function Interleaved(buffers: seq<seq<real>>, channels: nat): (s: seq<real>)
    requires Rectangular(buffers, channels)
    ensures |s| == |buffers[0]| * channels
  {
    var len := |buffers[0]|;
    seq(len * channels, k requires 0 <= k < len * channels =>
      SlotFrame(len, channels, k);
      buffers[k % channels][k / channels])
  }

  /** Channel `c`'s sample `i` lands at index `i * channels + c`. */
  lemma InterleavedAt(buffers: seq<seq<real>>, channels: nat, c: nat, i: nat)
    requires Rectangular(buffers, channels)
    requires c < channels && i < |buffers[0]|
    ensures i * channels + c < |Interleaved(buffers, channels)|
    ensures Interleaved(buffers, channels)[i * channels + c] == buffers[c][i]
  {
    FrameSlot(|buffers[0]|, channels, i, c);
  }

  /** A sequence that holds channel `c`'s sample `i` at every slot
      `i * channels + c` is the interleaved sequence: the slots cover it. */
  lemma InterleavedBySlots(buffers: seq<seq<real>>, channels: nat, s: seq<real>)
    requires Rectangular(buffers, channels)
    requires |s| == |buffers[0]| * channels
    requires forall c, i :: 0 <= c < channels && 0 <= i < |buffers[0]| ==>
      Slot(i, c, channels) < |s| && s[Slot(i, c, channels)] == buffers[c][i]
    ensures s == Interleaved(buffers, channels)
  {
    var len := |buffers[0]|;
    forall k | 0 <= k < |s|
      ensures s[k] == Interleaved(buffers, channels)[k]
    {
      SlotFrame(len, channels, k);
    }
  }

  /** The inner loop of the encoder for channel `c`:
      `samples[i * channels + c] = data[i]` for every frame `i`. The slots of
      the other channels are left as they were. */
  method CopyChannel(samples: array<real>, data: seq<real>, c: nat, channels: nat)
    requires c < channels && samples.Length == |data| * channels
    modifies samples
    ensures forall i :: 0 <= i < |data| ==>
      Slot(i, c, channels) < samples.Length && samples[Slot(i, c, channels)] == data[i]
    ensures forall c', i :: 0 <= c' < channels && c' != c && 0 <= i < |data| ==>
      Slot(i, c', channels) < samples.Length && samples[Slot(i, c', channels)] == old(samples[Slot(i, c', channels)])
  {
    var len := |data|;
    forall c', i' | 0 <= c' < channels && 0 <= i' < len
      ensures Slot(i', c', channels) < samples.Length
    {
      FrameSlot(len, channels, i', c');
    }
    var i := 0;
    while i < len
      invariant 0 <= i <= len
      invariant forall i' :: 0 <= i' < i ==>
        Slot(i', c, channels) < samples.Length && samples[Slot(i', c, channels)] == data[i']
      invariant forall c', i' :: 0 <= c' < channels && c' != c && 0 <= i' < len ==>
        Slot(i', c', channels) < samples.Length && samples[Slot(i', c', channels)] == old(samples[Slot(i', c', channels)])
    {
      FrameSlot(len, channels, i, c);
      forall c', i' | 0 <= c' < channels && 0 <= i' < len && (c' != c || i' != i)
        ensures Slot(i', c', channels) != Slot(i, c, channels)
      {
        SlotInjective(channels, i', c', i, c);
      }
      samples[i * channels + c] := data[i];
      i := i + 1;
    }
  }

  /** The nested loops of the encoder: channel by channel, frame by frame,
      `samples[i * channels + c] = buffers[c][i]`. */
  method InterleaveChannels(buffers: seq<seq<real>>, channels: nat) returns (samples: array<real>)
    requires Rectangular(buffers, channels)
    ensures fresh(samples)
    ensures samples[..] == Interleaved(buffers, channels)
  {
    var len := |buffers[0]|;
    samples := new real[len * channels](_ => 0.0);
    var c := 0;
    while c < channels
      invariant 0 <= c <= channels
      invariant samples.Length == len * channels
      invariant forall c', i :: 0 <= c' < c && 0 <= i < len ==>
        Slot(i, c', channels) < samples.Length && samples[Slot(i, c', channels)] == buffers[c'][i]
    {
      CopyChannel(samples, buffers[c], c, channels);
      c := c + 1;
    }
    InterleavedBySlots(buffers, channels, samples[..]);
  }

  function Abs(x: real): real { if x < 0.0 then -x else x }

  /** The largest magnitude in `s`, found left to right as the encoder's
      loop finds it (`if (a > max) max = a`, starting from 0). */
  function Peak(s: seq<real>): (p: real)
    ensures 0.0 <= p
  {
    if s == [] then 0.0
    else
      var max := Peak(s[..|s| - 1]);
      var a := Abs(s[|s| - 1]);
      if a > max then a else max
  }

  /** The peak bounds every magnitude and, unless it is 0, is the magnitude
      of some sample. */
  lemma {:induction false} PeakIsMax(s: seq<real>)
    ensures forall i :: 0 <= i < |s| ==> Abs(s[i]) <= Peak(s)
    ensures Peak(s) == 0.0 || exists i :: 0 <= i < |s| && Abs(s[i]) == Peak(s)
  {
    if s != [] {
      var init := s[..|s| - 1];
      PeakIsMax(init);
      assert forall i :: 0 <= i < |init| ==> s[i] == init[i];
      if Peak(init) != 0.0 && Abs(s[|s| - 1]) <= Peak(init) {
        var j :| 0 <= j < |init| && Abs(init[j]) == Peak(init);
        assert Abs(s[j]) == Peak(s);
      }
    }
  }

  /** Every sample multiplied by `n`. */
  function Scale(s: seq<real>, n: real): (r: seq<real>)
    ensures |r| == |s|
    ensures forall i :: 0 <= i < |s| ==> r[i] == s[i] * n
  {
    seq(|s|, i requires 0 <= i < |s| => s[i] * n)
  }

  /** The samples after the normalisation stage: unchanged when
      normalisation is off or the signal is silent, and otherwise scaled by
      `1 / peak`. */
  function Normalized(s: seq<real>, normalize: bool): (r: seq<real>)
    ensures |r| == |s|
  {
    var max := Peak(s);
    if normalize && max > 0.0 then Scale(s, 1.0 / max) else s
  }

  /** The peak is zero exactly when every sample is zero. */
  lemma PeakZeroIffSilent(s: seq<real>)
    ensures Peak(s) == 0.0 <==> forall i :: 0 <= i < |s| ==> s[i] == 0.0
  {
    PeakIsMax(s);
  }

  /** The peak is the one value that bounds every magnitude and is the
      magnitude of some sample. */
  lemma PeakUnique(s: seq<real>, v: real, j: nat)
    requires forall i :: 0 <= i < |s| ==> Abs(s[i]) <= v
    requires j < |s| && Abs(s[j]) == v
    ensures Peak(s) == v
  {
    PeakIsMax(s);
  }

  /** Dividing one sample `x` by a positive peak `p` to give `q`: the
      quotient times the peak is the sample, the sign is kept, and a
      magnitude at most the peak (equal to it) becomes at most 1 (equal to
      1). */
  lemma DivideByPeak(x: real, p: real, q: real)
    requires 0.0 < p && q == x * (1.0 / p)
    ensures q * p == x
    ensures q < 0.0 <==> x < 0.0
    ensures Abs(x) <= p ==> Abs(q) <= 1.0
    ensures Abs(x) == p ==> Abs(q) == 1.0
  {
    assert q * p == x;
    assert Abs(q) * p == Abs(x);
  }

  /** With normalisation on and a positive peak `p`, the samples are
      scaled by `1 / p`. */
  lemma NormalizedIsScale(s: seq<real>, p: real)
    requires p == Peak(s) && p > 0.0
    ensures Normalized(s, true) == Scale(s, 1.0 / p)
  {
  }

  /** Sample `i` scaled by `1 / p`, times `p`, is sample `i`, and its sign
      is kept. */
  lemma ScaledSampleRatio(s: seq<real>, p: real, i: nat)
    requires p > 0.0 && i < |s|
    ensures Scale(s, 1.0 / p)[i] * p == s[i]
    ensures Scale(s, 1.0 / p)[i] < 0.0 <==> s[i] < 0.0
  {
    DivideByPeak(s[i], p, Scale(s, 1.0 / p)[i]);
  }

  /** Sample `i` scaled by `1 / p` has magnitude at most 1 when its
      magnitude was at most `p`, and exactly 1 when it was `p`. */
  lemma ScaledSampleBound(s: seq<real>, p: real, i: nat)
    requires p > 0.0 && i < |s|
    ensures Abs(s[i]) <= p ==> Abs(Scale(s, 1.0 / p)[i]) <= 1.0
    ensures Abs(s[i]) == p ==> Abs(Scale(s, 1.0 / p)[i]) == 1.0
  {
    DivideByPeak(s[i], p, Scale(s, 1.0 / p)[i]);
  }

  /** With normalisation on and a non-silent signal of peak `p`, every
      sample is the old one divided by `p`, so signs and ratios between
      samples are kept. */
  lemma NormalizedRatio(s: seq<real>, p: real)
    requires p == Peak(s) && p > 0.0
    ensures Normalized(s, true) == Scale(s, 1.0 / p)
    ensures forall i :: 0 <= i < |s| ==> Scale(s, 1.0 / p)[i] * p == s[i]
    ensures forall i :: 0 <= i < |s| ==> (Scale(s, 1.0 / p)[i] < 0.0 <==> s[i] < 0.0)
  {
    NormalizedIsScale(s, p);
    forall i | 0 <= i < |s|
      ensures Scale(s, 1.0 / p)[i] * p == s[i]
      ensures Scale(s, 1.0 / p)[i] < 0.0 <==> s[i] < 0.0
    {
      ScaledSampleRatio(s, p, i);
    }
  }

  /** With normalisation on and a non-silent signal, the new peak magnitude
      is exactly 1. */
  lemma NormalizedPeak(s: seq<real>)
    requires Peak(s) > 0.0
    ensures Peak(Normalized(s, true)) == 1.0
  {
    var p := Peak(s);
    NormalizedIsScale(s, p);
    var r := Scale(s, 1.0 / p);
    PeakIsMax(s);
    var j :| 0 <= j < |s| && Abs(s[j]) == p;
    forall i | 0 <= i < |s|
      ensures Abs(r[i]) <= 1.0
    {
      ScaledSampleBound(s, p, i);
    }
    ScaledSampleBound(s, p, j);
    PeakUnique(r, 1.0, j);
  }

  /** With normalisation off, or on a silent signal, nothing changes. */
  lemma NormalizedIdentity(s: seq<real>, normalize: bool)
    requires !normalize || forall i :: 0 <= i < |s| ==> s[i] == 0.0
    ensures Normalized(s, normalize) == s
  {
    PeakZeroIffSilent(s);
  }

  /** The peak-finding pass of the normalisation stage. */
  method FindPeak(samples: array<real>) returns (max: real)
    ensures max == Peak(samples[..])
  {
    max := 0.0;
    var i := 0;
    while i < samples.Length
      invariant 0 <= i <= samples.Length
      invariant max == Peak(samples[..i])
    {
      var a := Abs(samples[i]);
      if a > max { max := a; }
      assert samples[..i + 1][..i] == samples[..i];
      i := i + 1;
    }
    assert samples[..] == samples[..samples.Length];
  }

  /** The rescaling pass: `samples[i] *= n` for every sample. */
  method ScaleInPlace(samples: array<real>, n: real)
    modifies samples
    ensures samples[..] == Scale(old(samples[..]), n)
  {
    var i := 0;
    while i < samples.Length
      invariant 0 <= i <= samples.Length
      invariant forall j :: 0 <= j < i ==> samples[j] == old(samples[j]) * n
      invariant forall j :: i <= j < samples.Length ==> samples[j] == old(samples[j])
    {
      samples[i] := samples[i] * n;
      i := i + 1;
    }
    assert forall j :: 0 <= j < samples.Length ==> samples[..][j] == Scale(old(samples[..]), n)[j];
  }

  /** The normalisation stage, in place: when asked for, one pass for the
      peak, then, when the peak is positive, `samples[i] *= 1 / peak`. */
  method Normalize(samples: array<real>, normalize: bool)
    modifies samples
    ensures samples[..] == Normalized(old(samples[..]), normalize)
  {
    if normalize {
      var max := FindPeak(samples);
      if max > 0.0 {
        var n := 1.0 / max;
        ScaleInPlace(samples, n);
      }
    }
  }
}
