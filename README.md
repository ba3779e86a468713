# WAV export of the audio sample generator, in Dafny

This project models the file-export path of the audio sample generator's
`script.js`:

- `downloadAudio` reads the form, fills one `Float32Array` per channel with
  a single tone, a sum of tones, or a phase-accumulated frequency sweep, and
  hands the buffers to `toWav`.
- `toWav` interleaves the channels and optionally peak-normalises them.
- It then writes the canonical 44-byte RIFF/WAVE header.
- Last, it quantises every sample to a 16-, 24- or 32-bit little-endian word
  in a zero-filled `ArrayBuffer`.

The model keeps the source's form:

- The loops that fill the channel buffers, interleave, find the peak, rescale
  and write bytes are methods over arrays. Each is proved against a function
  that specifies its result.
- The header, the data region, the sample values and the whole download are
  functions. Lemmas state what a reader of the file gets back.

Modules:

- `Bytes`: the `DataView` stores (`setUint8/16/32`, `setInt16/32` and the
  24-bit byte split), the matching little-endian readers, and their
  round trips.
- `Quantize`: the clamp to [-1, 1], the asymmetric scaling, and the rounding
  each depth applies: truncation toward zero through `setInt16`/`setInt32`,
  `Math.round` for 24 bits.
- `Frames`: interleaving and peak normalisation.
- `Wav`: the header layout, the data region, and `toWav` end to end.
- `Synthesis`: sample generation per mode, the buffer-filling loops, the
  three ways `downloadAudio` stops early, and the properties of the file it
  downloads.

Numbers are exact reals and unbounded integers.

- The wrap-around of `setUint16`/`setUint32` is written out as reduction
  modulo 2^16 and 2^32.
- JavaScript's `%` on doubles is written out as the truncating remainder
  (`JsRem`).
- `Math.PI` is the decimal 3.141592653589793.
- `Math.sin`, `Math.asin`, `Math.pow`, `Math.sqrt` and the successive draws
  of `Math.random` are fields of a `Maths` parameter. The only assumptions
  made of them are that `sqrt` is positive on positive arguments and that
  `pow(x, 0)` is 1.

Some behaviours of `script.js` that a reader might not expect, all kept as
written:

- `setInt16` and `setInt32` convert a fractional number by truncating it
  toward zero (script.js:332, 345). Only the 24-bit branch calls
  `Math.round` (script.js:337).
- `downloadAudio` has no noise branch in multiple mode (script.js:409-416)
  or sweep mode (script.js:436-440), so every such sample stays 0. Only live
  playback switches noise to a sine oscillator (script.js:214, 228).
- One second of mono 16-bit audio at 8000 Hz is 44 + 8000 * 2 = 16044
  bytes. Its sample-rate field reads 8000 and its data-size field reads
  16000; `MonoSineExample` proves the three figures.
- For a linear sweep between two non-negative frequencies, with a positive
  rate and duration, the phase stays in [0, 2 PI) (`LinearSweepPhase`). On
  such a phase the sweep-mode sawtooth `(2 / PI) * (phase - PI) * amplitude`
  spans [-2 amplitude, 2 amplitude) (`SweepSawtoothRange`).
- For a positive frequency at a non-negative time, the single-mode sawtooth
  spans [-amplitude, amplitude) (`ToneSawtoothRange`).
- `parseFloat` accepts negative frequencies, and then neither range holds.
  A sweep from -100 Hz to -100 Hz keeps its phase in (-2 PI, 0]. A negative
  single-mode frequency gives sawtooth values at or below -amplitude.

## Model

| member | source | states |
|---|---|---|
| Bytes.Uint16LE | script.js:320-325 | `setUint16(o, v, true)` stores two bytes, low byte first, whose little-endian value is `v` modulo 2^16 |
| Bytes.Uint32LE | script.js:316-327 | `setUint32(o, v, true)` stores four bytes, low byte first, whose little-endian value is `v` modulo 2^32 |
| Bytes.Int24LE | script.js:338-340 | the three bytes `val & 0xFF`, `(val >> 8) & 0xFF`, `(val >> 16) & 0xFF` have the little-endian value `val` modulo 2^24 |
| Bytes.Ascii | script.js:314 | `ws` stores one byte per character; a character below 256 is stored as its code |
| Bytes.Uint16RoundTrip | script.js:320-325 | a `setUint16(o, v, true)` field reads back as `v` modulo 2^16 |
| Bytes.Uint32RoundTrip | script.js:316-327 | a `setUint32(o, v, true)` field reads back as `v` modulo 2^32 |
| Bytes.Int16RoundTrip | script.js:332 | a 16-bit sample word in [-2^15, 2^15) reads back exactly as a signed little-endian word |
| Bytes.Int32RoundTrip | script.js:345 | a 32-bit sample word in [-2^31, 2^31) reads back exactly |
| Bytes.Int24RoundTrip | script.js:337-340 | the three bytes `val & 0xFF`, `(val >> 8) & 0xFF`, `(val >> 16) & 0xFF` of a 24-bit value read back as that value (two's complement) |
| Bytes.SetBytes | script.js:314 | writing a run of bytes at offset `o` puts exactly those bytes there and changes nothing before or after them |
| Quantize.Clamp | script.js:331 | `Math.max(-1, Math.min(1, x))` lies in [-1, 1], is `x` inside that range, and saturates to the nearer bound outside it |
| Quantize.Trunc | script.js:332 | the integer `setInt16`/`setInt32` store for a number: the truncation toward zero, within one of it on the side of zero |
| Quantize.Round | script.js:337 | `Math.round` gives the integer within one half of `x`, a half rounded up |
| Quantize.Word16 | script.js:331-332 | the 16-bit word is in [-0x8000, 0x7FFF], is 0x7FFF at or above 1 and -0x8000 at or below -1, and is negative exactly when the sample is at most -1/32768 |
| Quantize.Word24 | script.js:336-337 | the 24-bit value is in [-0x800000, 0x7FFFFF] and saturates at the two ends |
| Quantize.Word32 | script.js:344-345 | the 32-bit word is in [-0x80000000, 0x7FFFFFFF] and saturates at the two ends |
| Quantize.SampleBytes | script.js:329-346 | each sample takes `bitDepth / 8` bytes (the offset steps 2, 3 and 4) |
| Quantize.SampleBytesDecode | script.js:329-346 | the bytes of a sample read back, at the same depth, as the word the sample was quantised to |
| Quantize.SilentSampleBytes | script.js:329-346 | a zero sample is stored as zero bytes at every supported depth |
| Frames.SlotIndex | script.js:295 | counting frame by frame, channel `c` of frame `i` is slot `i * channels + c` |
| Frames.FrameSlot | script.js:295 | slot `i * channels + c` lies inside the interleaved array and divides back into frame `i`, channel `c` |
| Frames.SlotFrame | script.js:292-295 | every index of the interleaved array is the slot of some frame and channel |
| Frames.SlotInjective | script.js:295 | two (frame, channel) pairs share a slot if and only if they are the same pair |
| Frames.Interleaved | script.js:291-292 | the interleaved array has `len * channels` samples, `len` being the first buffer's length |
| Frames.InterleavedAt | script.js:295 | channel `c`'s sample `i` is at index `i * channels + c` of the interleaved array |
| Frames.InterleavedBySlots | script.js:293-296 | an array holding every channel's sample `i` at slot `i * channels + c` is the interleaved array |
| Frames.CopyChannel | script.js:294-295 | the inner loop puts `data[i]` at slot `i * channels + c` for every frame, and leaves the other channels' slots unchanged |
| Frames.InterleaveChannels | script.js:291-296 | the nested loops produce a fresh array equal to the interleaved samples |
| Frames.Peak | script.js:298-302 | the running maximum of magnitudes, starting at 0, is non-negative |
| Frames.PeakIsMax | script.js:298-302 | the peak bounds every magnitude and, unless it is 0, is the magnitude of some sample |
| Frames.PeakZeroIffSilent | script.js:303 | the peak is 0 if and only if every sample is 0, so `if (max > 0)` skips exactly the silent signals |
| Frames.PeakUnique | script.js:298-302 | a value that bounds every magnitude and is reached by one sample is the peak |
| Frames.Scale | script.js:305 | `samples[i] *= n` keeps the length and multiplies each sample by `n` |
| Frames.Normalized | script.js:297-307 | normalisation keeps the number of samples |
| Frames.DivideByPeak | script.js:304-305 | a sample times `1 / max`, times `max`, is the sample; its sign is kept; a magnitude at most (equal to) the peak becomes at most (equal to) 1 |
| Frames.NormalizedIsScale | script.js:303-306 | with normalisation on and a positive peak `p`, the samples are scaled by `1 / p` |
| Frames.ScaledSampleRatio | script.js:305 | one scaled sample times the peak is the original sample, with the same sign |
| Frames.ScaledSampleBound | script.js:305 | a scaled sample has magnitude at most 1, and exactly 1 where the original reached the peak |
| Frames.NormalizedRatio | script.js:297-307 | after normalisation every sample times the old peak is the old sample, and every sign is kept |
| Frames.NormalizedPeak | script.js:297-307 | normalising a non-silent signal gives peak exactly 1 |
| Frames.NormalizedIdentity | script.js:297-307 | with normalisation off, or on a silent signal, the samples are unchanged |
| Frames.FindPeak | script.js:298-302 | the peak-finding loop returns the peak of the samples |
| Frames.ScaleInPlace | script.js:305 | the rescaling loop leaves the samples scaled by `n` |
| Frames.Normalize | script.js:297-307 | the normalisation stage leaves the array equal to the normalised samples |
| Wav.TagBytes | script.js:314-326 | the four tag constants are the bytes `ws` writes for "RIFF", "WAVE", "fmt " and "data" |
| Wav.Header | script.js:308-327 | the header is 44 bytes |
| Wav.RiffFields | script.js:315-317 | bytes 0-3 are "RIFF", bytes 4-7 read `36 + ds` modulo 2^32, bytes 8-11 are "WAVE" |
| Wav.FmtFields | script.js:318-325 | "fmt ", chunk size 16, format 1 (PCM), channels, sample rate, byte rate `sampleRate * blockAlign`, block align `channels * bitDepth / 8` and bit depth each read back from their offsets, modulo the field width |
| Wav.DataFields | script.js:326-327 | bytes 36-39 are "data" and bytes 40-43 read `ds` modulo 2^32 |
| Wav.Encoded | script.js:328-347 | the sample loop of a supported depth writes `bitDepth / 8` bytes per sample |
| Wav.EncodedPrefix | script.js:328-347 | the encoding of the first `j` samples is a prefix of the encoding of all of them |
| Wav.EncodedStep | script.js:330-345 | one loop iteration appends exactly the bytes of the next sample |
| Wav.EncodedLayout | script.js:328-347 | sample `k` occupies bytes `k * w` to `(k + 1) * w` of the data region, as its quantised word |
| Wav.DataRegion | script.js:311-312 | the data chunk is `ds = samples.length * bitDepth / 8` bytes at every byte-aligned depth, written or left zero |
| Wav.EncodeWav | script.js:311-347 | the file is the 44-byte header followed by `ds` data bytes |
| Wav.WavFile | script.js:289-349 | the file of `channels` buffers of `len` samples is `44 + len * channels * bitDepth / 8` bytes |
| Wav.PutField | script.js:314-327 | one header field is stored after the fields already written; the header bytes after it and the bytes past the header are untouched |
| Wav.WriteHeader | script.js:314-327 | the thirteen header writes leave the first 44 bytes equal to the header and the rest unchanged |
| Wav.WriteSamples | script.js:328-347 | the sample loop of a supported depth fills the bytes after the header with the encoded samples |
| Wav.WriteWav | script.js:308-347 | a zeroed buffer of `44 + ds` bytes ends up holding the encoded file |
| Wav.ToWav | script.js:289-349 | `toWav` returns a fresh buffer equal to the file of the interleaved, optionally normalised samples |
| Wav.WavLayout | script.js:308-327 | the file is `44 + samples * bitDepth / 8` bytes and starts with the header for that data size |
| Wav.WavSampleAt | script.js:328-347 | at a supported depth, sample `k` is stored at offset `44 + k * bitDepth / 8` as the bytes of its quantised word |
| Wav.WavUnsupportedSilent | script.js:312-347 | at any other byte-aligned depth the header announces the data size, but every data byte stays 0 |
| Wav.EncodedSilent | script.js:329-347 | silence encodes to zero bytes |
| Wav.SilentWav | script.js:289-347 | silent channel buffers give a file whose data bytes are all 0, with or without normalisation |
| Synthesis.JsRem | script.js:432 | JavaScript's `%` keeps the dividend's sign, is smaller than the divisor in magnitude, and differs from the dividend by a whole multiple of the divisor |
| Synthesis.JsRemReduced | script.js:432 | `x % d` is `x` when `0 <= x < d` |
| Synthesis.Total | script.js:378 | `totalSamples` is `Math.floor(sampleRate * duration)`: the integer at most the product and within one of it |
| Synthesis.TimeOf | script.js:386 | `time = i / sampleRate` is the time at which `time * sampleRate` samples have passed; it is non-negative for a positive rate |
| Synthesis.Tone | script.js:392-396 | a square tone is plus or minus its amplitude, and a tone of amplitude 0 is 0 |
| Synthesis.Cycle | script.js:396 | `time % (1 / f)` has the sign of `time` (non-negative for a non-negative time, non-positive for a non-positive one), is shorter than one period, and leaves a whole number of periods behind |
| Synthesis.SingleValue | script.js:389-396 | amplitude 0 gives 0, a square sample is plus or minus the amplitude, and noise from a draw in [0, 1) lies in [-amplitude, amplitude) |
| Synthesis.Positives | script.js:402 | `filter(x => x > 0)` keeps every positive entry as often as it occurs and drops every other entry, so its length is the number of positive entries and every kept frequency is positive |
| Synthesis.ToneAmplitude | script.js:405 | the per-tone amplitude times `sqrt(n)` is the requested amplitude |
| Synthesis.MultiSum | script.js:409-416 | the `forEach` sum is 0 for the noise waveform, which has no branch there, and 0 for tones of amplitude 0 |
| Synthesis.SweepFrequency | script.js:427-428 | a linear sweep has moved from the start frequency by `(end - start) * i / (sampleRate * duration)` after `i` samples, and stays between the two end frequencies for a positive rate and duration; either sweep asks for the start frequency at the first sample |
| Synthesis.PhaseAfter | script.js:431-432 | the accumulated sweep phase stays strictly between -2 PI and 2 PI |
| Synthesis.SweepValue | script.js:436-440 | a square sweep sample is plus or minus the amplitude, and amplitude 0 gives 0 |
| Synthesis.SampleValue | script.js:383-443 | a silent request (amplitude 0, or noise outside single mode) gives 0 at every sample |
| Synthesis.Signal | script.js:378-443 | the signal has `Math.floor(sampleRate * duration)` samples, each the value of its mode |
| Synthesis.Replicate | script.js:398 | every channel gets a buffer of the same length, as the encoder needs |
| Synthesis.Download | script.js:368-447 | a file is produced exactly when there is at least one channel, `totalSamples` is not negative, and multiple mode has a positive frequency; the file is `44 + totalSamples * channels * bitDepth / 8` bytes; otherwise it stops with the RangeError of a negative `Float32Array` length when there is a channel and `totalSamples` is negative, else with the "Enter valid frequencies" alert in multiple mode without a positive frequency, else with the TypeError of `buffers[0].length` when there is no channel |
| Synthesis.SquareTone | script.js:392-394 | the square tone is the amplitude where `Math.sin(p)` is non-negative and its negation elsewhere, `p` being `2 * PI * frequency * time` |
| Synthesis.SquareLevels | script.js:392-438 | a single-mode square sample is the amplitude where `Math.sin(2 * PI * frequency * time)` is non-negative and minus it elsewhere; a sweep-mode square sample does the same with the accumulated phase |
| Synthesis.MultiSquareBound | script.js:413 | a sum of `n` square tones stays within `n` times the per-tone amplitude |
| Synthesis.ProgressBounds | script.js:427 | for a positive sample rate and a positive duration, `time / duration` lies in [0, 1) at every generated sample |
| Synthesis.LinearSweepPhase | script.js:431-432 | for a linear sweep between non-negative start and end frequencies, at a positive sample rate and a positive duration, the accumulated phase stays in [0, 2 PI) |
| Synthesis.ToneSawtoothRange | script.js:396 | the time-domain sawtooth of a positive frequency at a non-negative time spans [-amplitude, amplitude) |
| Synthesis.SweepSawtoothRange | script.js:440 | for a phase in [0, 2 PI) and a positive amplitude, the phase-domain sawtooth spans [-2 amplitude, 2 amplitude); for a positive amplitude it is -2 amplitude at phase 0 |
| Synthesis.DownloadLayout | script.js:378-447 | a downloaded file is `44 + totalSamples * channels * bitDepth / 8` bytes and starts with the header for that data size |
| Synthesis.FileHeader | script.js:321-327 | any file that starts with the header reads back channels, sample rate, bit depth and data size, each modulo its field width (2^16 or 2^32) |
| Synthesis.DownloadHeader | script.js:378-447 | the downloaded header reads back the requested channels, rate and bit depth and the data size `totalSamples * channels * bitDepth / 8`, each modulo its field width |
| Synthesis.ChannelsIdentical | script.js:398 | every channel of a frame holds the same sample, before and after normalisation |
| Synthesis.DownloadSilent | script.js:378-447 | a silent request downloads a file whose data bytes are all 0 |
| Synthesis.MonoSineExample | script.js:368-447 | one second of a 440 Hz sine at 8000 Hz, mono, 16-bit: 16044 bytes, rate field 8000, data-size field 16000 |
| Synthesis.AllocateBuffers | script.js:379-380 | one fresh zero-filled buffer of `totalSamples` per channel, no two the same, and none when `channels` is not positive |
| Synthesis.WriteFrame | script.js:398 | `buffers[c][i] = value` for every channel, and nothing else changes |
| Synthesis.FillSingle | script.js:383-399 | the single-mode loop leaves every channel holding the signal |
| Synthesis.FillMultiple | script.js:400-418 | the multi-tone loop, with its `forEach` sum, leaves every channel holding the signal |
| Synthesis.FillSweep | script.js:419-443 | the sweep loop, carrying the phase from sample to sample, leaves every channel holding the signal |
| Synthesis.FillBuffers | script.js:382-444 | whichever mode is chosen, every channel holds the signal |
| Synthesis.Contents | script.js:447 | the buffers `toWav` reads are the channel arrays' contents |
| Synthesis.EncodeBuffers | script.js:447 | the filled buffers go through `toWav` to the file of the replicated signal |
| Synthesis.RenderBuffers | script.js:382-447 | after filling, no channel means the `TypeError` of `buffers[0].length`, otherwise the file of the replicated signal |
| Synthesis.DownloadAudio | script.js:368-447 | `downloadAudio` ends with the `RangeError` of a negative length, the "Enter valid frequencies" stop, the `TypeError` of no channel, or the file, exactly as `Download` says |

## Left out

- The user interface is not modelled: form reading, live playback through
  the Web Audio API, localisation and event wiring. `Request` stands for the
  already-parsed form values.
- `downloadFile` is not modelled: `Blob`, object URLs and the `<a download>`
  click. Neither is the file-name construction after `toWav`. The model ends
  at the bytes of the file.
- `parseFloat`/`parseInt` results of NaN, and Infinity anywhere, are not
  modelled, because numbers are exact reals and integers. The float32 rounding
  of values stored into a `Float32Array` is not modelled either: samples are
  kept exact.
- `Math.sin`, `Math.asin`, `Math.pow`, `Math.sqrt` and `Math.random` are
  parameters. Nothing is assumed of them beyond `sqrt` being positive on
  positive arguments and `pow(x, 0)` being 1, so the range of `Math.random`
  is not used.
- `toWav` is modelled only for bit depths that are non-negative multiples
  of 8 (`Modelled`, and the requires of `ToWav`). Any other depth gives a
  fractional `bitDepth / 8` in JavaScript.
- A logarithmic sweep starting at 0 Hz is excluded (`SweepDefined`),
  because it divides by zero and gives NaN.
- Modes other than single, multiple and sweep are not modelled. The source
  would leave the buffers zero.
- Calls to `toWav` with fewer buffers than channels, or with buffers
  shorter than `buffers[0]`, do not arise from `downloadAudio`: it makes one
  buffer per channel, each `totalSamples` long. `ToWav` requires this
  (`Rectangular`).
- The size limits of `ArrayBuffer` and `Float32Array` are not modelled.
- Synthesis.Contents copies the channel arrays into sequences so that
  `toWav` can be stated over values. The source passes the arrays
  themselves, and this aliasing is not modelled.
- Synthesis.DownloadAudio checks for an empty frequency list after
  allocating the buffers and before filling any, as the source's multiple
  branch does. The check is written before the mode dispatch
  (`FillBuffers`), which is equivalent because nothing is filled first.
