# beeeeeep transmitter core, modelled in Dafny

beeeeeep is an acoustic modem. The transmitter (Rust) turns a stream of
2-bit symbols into an audio waveform, as follows:

1. A pseudo-random generator (`blumblumshub`) produces the symbols.
2. Each symbol becomes a QPSK phase, with an extra pi/4 offset at even
   positions (`angle_to_iq`).
3. An all-zero header of eight symbols is put in front (`generate_signal`).
4. Each I/Q value is held for a whole symbol period (`repeat`).
5. Both branches go through a root-raised-cosine filter. The filter is
   built once on first use (`rrc_filter`, `generate`) and applied by FFT
   convolution (`fast_convolve`, `multiply`).
6. The result is scaled and quantised to i16 samples
   (`send_chunks_audio`).

The receiver (Python) rebuilds the expected symbols with its own copy of
the generator.

The model has one module per concern:

- `RustCore` (common.dfy): Rust panics as a `Result`, the integer widths
  used, and Rust's float-to-i16 cast.
- `VecUtil` (array.dfy): `multiply` (in place on an array), `repeat` and
  `generate`.
- `Convolve` (convolve.dfy): the data movement of `fast_convolve`. The
  FFT chain is an opaque `transform` parameter. The group-delay shift is
  an in-place array loop.
- `Symbols` (bbs.dfy): the Rust `blumblumshub`.
- `PyReference` (reference.dfy): the Python `blumblumshub`, and its
  agreement with the Rust one.
- `Modem` (modem.dfy): `angle_to_iq`, the header and stretching of
  `generate_signal`, `send_chunks_audio`, and the `rrc_filter` memo as a
  class with one mutable slot.

Samples are modelled as `real`. Trigonometry is replaced by caller-supplied
functions `cos8`/`sin8` of a phase counted in eighth-turns. The filter's
closure is a parameter `tap`.

Where the code and the documentation disagree, the model follows the code.
`(val * GAIN) as i16` truncates toward zero and then saturates at the i16
bounds. Since Rust 1.45 this is the defined semantics of a float-to-integer
`as` cast. It does not wrap.

## Model

| member | source | states |
|---|---|---|
| VecUtil.Product | src/array.rs:34-36 | the elementwise product has the inputs' length and element `k` is `mul(a[k], b[k])` |
| VecUtil.Multiply | src/array.rs:32-37 | unequal lengths fail the `assert_eq!` and leave `one` untouched; otherwise `one` becomes the elementwise product of its old contents with `two`, and `two` is unchanged |
| VecUtil.ProductExample | src/array.rs:32-37 | [2,3,4] times [5,6,7] is [10,18,28] |
| VecUtil.Replicate | src/array.rs:45-47 | `n` copies of one value, every element equal to it |
| VecUtil.Stretch | src/array.rs:39-55 | the output of `repeat` has exactly the requested length |
| VecUtil.Repeat | src/array.rs:39-55 | an empty input divides by zero; otherwise the nested push loops build exactly `Stretch(v, desired_len)` |
| VecUtil.HoldLength | src/array.rs:44-48 | holding each of `|v|` elements for `per` samples gives `|v| * per` samples |
| VecUtil.HoldBlock | src/array.rs:44-48 | sample `j * per + c` (with `c < per`) of the hold is element `j` |
| VecUtil.QuotientBelow | src/array.rs:41-42 | a sample index below `n * per` has quotient below `n` and is quotient times `per` plus remainder |
| VecUtil.HoldAt | src/array.rs:44-48 | sample `k` of the hold is element `k / per` |
| VecUtil.StretchAt | src/array.rs:39-55 | below `per_elem * |v|` sample `k` is element `k / per_elem`; at or past it, every sample is the last element |
| VecUtil.HoldThenTail | src/array.rs:44-52 | the same placement, stated for whole repeats followed by a tail of copies of the last element |
| VecUtil.StretchShort | src/array.rs:41-52 | a request shorter than `v` gives only copies of the last element |
| VecUtil.StretchExamples | src/array.rs:39-55 | `[a,b,c]` stretched to 9 is `[a,a,a,b,b,b,c,c,c]`; `[a,b]` stretched to 5 is `[a,a,b,b,b]` |
| VecUtil.Generate | src/array.rs:79-87 | `size` values, value `i` being `func` at `i / size * (end - start) + start` |
| VecUtil.GridEvenlySpaced | src/array.rs:83 | the sample grid starts at `start` and consecutive points are `(end - start) / size` apart |
| VecUtil.GridInRange | src/array.rs:79-87 | for `start < end` every grid point lies in the half-open range `[start, end)` |
| Convolve.ZeroPad | src/array.rs:64-65 | `resize(size, 0.0)` has length `size`, keeps the first samples and zero-fills the rest |
| Convolve.ShiftNormalise | src/array.rs:73-75 | in place, sample `i` becomes raw sample `i + shift` divided by the tap sum for `i < len - shift`, and the last `shift` samples keep their raw values |
| Convolve.FastConvolve | src/array.rs:58-77 | for a kernel with a non-zero tap sum (hence non-empty), and with the transform chain modelled as total, the only panic is the `result.len() - shift_length` underflow, when the raw inverse transform is shorter than `smaller.len() / 2`; otherwise returns the shifted, normalised raw result of transforming both inputs zero-padded to `larger.len() + smaller.len() - 1` |
| Convolve.ConvSupport | src/array.rs:61-65 | the reference linear convolution is zero outside its first `|a| + |b| - 1` samples, which is why padding both inputs to `size` suffices (the source's raw result itself is `2 * (size / 2 + 1) - 1` samples long, not modelled) |
| Convolve.ImpulseDelays | src/array.rs:58-77 | convolving with a unit impulse at `p` delays the kernel by `p` samples |
| Convolve.ImpulseResponse | src/array.rs:59-60 | after the `len / 2` shift and the division by the tap sum, a centred impulse comes out as the normalised kernel, aligned at sample 0 |
| Symbols.State | src/array.rs:94-96 | every state of the squaring chain is below PQ |
| Symbols.SquareFitsU64 | src/array.rs:96 | a u32 value squared fits a u64 |
| Symbols.StateFits | src/array.rs:96 | each state fits u32 and its square fits u64, so the loop's casts and products never overflow |
| Symbols.BlumBlumShub | src/array.rs:92-102 | `seed * seed` past u64 overflows and a zero `max` divides by zero; otherwise the two loops return state `i` mod `max` at every position |
| Symbols.OutputShape | src/array.rs:92-102 | `count` symbols (one for a zero count), each below `max` |
| Symbols.OutputRecurrence | src/array.rs:95-99 | consecutive symbols come from a state and its square mod PQ |
| Symbols.ZeroSeedState | src/array.rs:94-96 | seed 0 keeps every state at 0 |
| Symbols.ZeroSeedDegenerates | src/array.rs:92-102 | seed 0 makes every symbol 0 |
| PyReference.PyMod | main.py:20-21 | Python's `%` takes the sign of the divisor and lies strictly within it |
| PyReference.PyBlumBlumShub | main.py:17-21 | the generator, run to exhaustion, yields `PyOutput`: nothing for `count <= 0`, ZeroDivisionError for a zero `maxelem` when there is a first value, and otherwise state `i + 1` mod `maxelem` at position `i` |
| PyReference.PyOutputShape | main.py:17-21 | for a positive `maxelem`, exactly `max(count, 0)` values, each in `[0, maxelem)` |
| PyReference.StatesAgree | main.py:19-20 | Python's state after `i + 1` squarings is Rust's state `i` |
| PyReference.RustAgreesWithPython | main.py:17-21 | for `count >= 1`, `max >= 1` and a seed below 2^32, the receiver's reference produces exactly the transmitter's symbols |
| PyReference.ZeroCountDiffers | src/array.rs:93-94 | on a zero count Rust still returns one symbol while Python yields none |
| Modem.PhaseRoundTrip | src/main.rs:29-33 | every phase is one of eight eighth-turns, odd exactly at even positions, and dividing by two gives back the symbol mod 4 |
| Modem.PhaseInjective | src/main.rs:29-33 | two symbols share a phase if and only if they agree mod 4 and sit at positions of the same parity |
| Modem.AngleToIq | src/main.rs:26-38 | one I value and one Q value per symbol, in order: cosine and sine of that symbol's phase |
| Modem.StretchedBranches | src/main.rs:120-127 | both branches are `num_samples + HEADERSAMPLES` long and are the header-prefixed I/Q branches stretched to that length |
| Modem.HeaderPhases | src/main.rs:121-124 | the header symbols have phases 1, 0, 1, 0, … eighth-turns, in positions `0..8` of the branch |
| Modem.HeaderIndex | src/main.rs:121-127 | a sample among the first eight holds lies inside the whole repeats and belongs to a header symbol |
| Modem.PreambleSamples | src/main.rs:120-127 | the stretched I branch opens with the header: sample `s` of the first eight holds is the cosine of phase 1 or 0, alternating with its hold |
| Modem.MainTiming | src/main.rs:16-20 | with the transmitter's own settings (`SAMPLES` = 110250, `SYMBOLS` = 125), each of the 133 symbols is held for exactly 882 samples with no remainder |
| Modem.SendChunksAudio | src/main.rs:41-55 | no chunks is an out-of-bounds panic; chunks of unequal length fail the assertion; otherwise one i16 per sample, the saturating truncating cast of GAIN times the chunks' sum |
| Modem.ColumnSumSplit | src/main.rs:46-50 | the channel sum of two groups of chunks is the sum of their channel sums |
| Modem.SingleChunk | src/main.rs:46-50 | a single chunk passes through unchanged before scaling |
| Modem.KernelGrid | src/main.rs:98-111 | the filter has 882 taps, and tap `i` is the closure taken at `2 * i - 882` |
| Modem.FilterCache.constructor | src/main.rs:85 | the kernel slot starts empty |
| Modem.FilterCache.RrcFilter | src/main.rs:87-117 | returns the 882-tap kernel of the closure; the first call fills the slot with it, and later calls return the stored kernel without changing the slot |
| VecUtil.Hold | src/array.rs:44-48 | definition: each element pushed `per` times, in order |
| Convolve.Sum | src/array.rs:60 | definition: the taps added from the left, starting at zero |
| Convolve.Raw | src/array.rs:61-72 | definition: the opaque transform applied to both inputs zero-padded to `larger.len() + smaller.len() - 1` |
| Symbols.Output | src/array.rs:92-102 | definition: the overflow panic of `seed * seed` first, then division by zero for `max == 0`, otherwise state `i` mod `max` at each position |
| PyReference.PyOutput | main.py:17-21 | definition: nothing for `count <= 0`, ZeroDivisionError for `maxelem == 0` when there is a first value, otherwise state `i + 1` mod `maxelem` |
| Modem.Phase | src/main.rs:30-33 | definition: `2 * (j % 4)` eighth-turns, plus one at even positions |
| Modem.ColumnSum | src/main.rs:46-50 | definition: sample `k` of the chunks added in order, starting from zero |
| Modem.Kernel | src/main.rs:101-111 | definition: the closure sampled on the 882-point grid over `[-882, 882)` |
| RustCore.Truncate | src/main.rs:52 | rounding toward zero: the result has the input's sign and lies within one unit of it, on the zero side |
| RustCore.CastToI16 | src/main.rs:52 | `as i16` truncates in range and saturates at -32768 and 32767 outside it |
| RustCore.TruncateMonotone | src/main.rs:52 | truncation preserves order |
| RustCore.CastToI16Monotone | src/main.rs:52 | quantisation preserves the order of samples |
| RustCore.CastToI16Exact | src/main.rs:52 | an in-range whole number is quantised to itself |
| RustCore.MulMonotone | src/array.rs:96 | multiplying by a natural number is monotone, which bounds the u64 products of the generator |

## Left out

- The FFT and inverse FFT (src/array.rs:15-29) are not modelled. Neither
  is the product of the spectra, which `fast_convolve` computes with
  `multiply` on `Complex32`. `Convolve.FastConvolve` takes the whole chain
  as an opaque `transform` parameter. So the model does not state that the
  raw result equals the linear convolution, nor that its length is
  `2 * (size / 2 + 1) - 1`.
- Convolve.FastConvolve: the transform chain is total in the model, so
  panics inside it are not modelled: the `process(...).unwrap()` calls
  (src/array.rs:19, 27) and the degenerate plan lengths when `size` is 0
  or 1.
- VecUtil.Multiply: generic over the element type and a caller-given
  `mul`, so complex arithmetic is not modelled.
- Convolve.FastConvolve: requires a non-zero tap sum. Division by a zero
  sum gives infinities or NaN in f32, which `real` cannot represent. This
  requirement also excludes an empty `smaller`, so the model leaves out
  two behaviours it has there:
  - the underflow of `larger.len() + smaller.len() - 1` on two empty
    inputs (src/array.rs:61);
  - the one-sample cut that `resize` makes to a non-empty `larger` before
    the 0/0 division (src/array.rs:64).
- Floating point throughout: samples are `real`, so f32 rounding,
  overflow to infinity and NaN (which `as i16` turns into 0) are not
  modelled.
- VecUtil.Generate: computes its grid points exactly. The f32 grid
  rounds.
- The trigonometry of `angle_to_iq` (`cos`/`sin` of multiples of pi/4)
  stands behind the parameters `cos8`/`sin8`. The model proves which phase
  every symbol gets, not the float values.
- The root-raised-cosine formula, `sinc` and the `is_normal` panic inside
  the filter closure (src/main.rs:88-110) are the parameter `tap` of
  `Modem.FilterCache`. The panic is therefore not modelled.
- The writes to the debug log (src/main.rs:112, src/log.rs) are I/O and
  not modelled.
- The carrier-mixing loop of `generate_signal` (src/main.rs:137-146) is
  not modelled. It is float oscillator arithmetic through
  `Complex32::from_polar`.
- `main` (src/main.rs:57-83) is not modelled: it is logging, printing,
  ALSA playback and capture. src/pcm_manager.rs is audio device I/O and is
  not part of this model.
- The receiver's demodulation in main.py (plots, FFT, matched filtering)
  is not modelled, only its `blumblumshub`. The generator's laziness is
  modelled by running it to exhaustion.
- PyReference.PyMod: does not state the congruence `a == b * q + r`, only
  the sign and range of the remainder.
- Arithmetic overflow is modelled with debug-build semantics (a panic) for
  `seed * seed` in `blumblumshub` and `result.len() - shift_length` in
  `fast_convolve`. Release-build wrap-around is not modelled.
- `static mut RRCPTR` is a process-wide unsynchronised global. The model
  is one `FilterCache` object, and concurrent callers are not modelled.
