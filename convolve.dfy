/** The data movement of `fast_convolve` (src/array.rs): zero padding of
    both inputs, the spectral product as an opaque transform, then the
    group-delay shift and normalisation done in place on the result. */
module Convolve {
  import opened RustCore

  /** `iter().sum()`: the taps added from the left, starting at zero. */
  function Sum(s: seq<real>): real
  {
    if s == [] then 0.0 else Sum(s[..|s| - 1]) + s[|s| - 1]
  }

  /** `Vec::resize(size, 0.0)`: cut to `size`, or extend with zeros. */
  function ZeroPad(s: seq<real>, size: nat): (r: seq<real>)
    ensures |r| == size
    ensures forall k :: 0 <= k < size ==> r[k] == if k < |s| then s[k] else 0.0
  {
    if size <= |s| then s[..size] else s + seq(size - |s|, _ => 0.0)
  }

  /** One raw sample divided by the tap sum. */
  function Normalise(x: real, filtSum: real): real
    requires filtSum != 0.0
  {
    x / filtSum
  }

  /** The group-delay correction: sample `i` becomes the raw sample `shift`
      places later divided by the tap sum; the last `shift` samples keep
      their raw values. */
  function ShiftedNormalised(raw: seq<real>, shift: nat, filtSum: real): seq<real>
    requires shift <= |raw| && filtSum != 0.0
  {
    seq(|raw|, i requires 0 <= i < |raw| =>
      if i < |raw| - shift then Normalise(raw[i + shift], filtSum) else raw[i])
  }

  /** The shift loop of `fast_convolve`, in place. The loop ascends and reads
      ahead, so every sample it reads has not been overwritten yet. */
  method ShiftNormalise(a: array<real>, shift: nat, filtSum: real)
    requires shift <= a.Length && filtSum != 0.0
    modifies a
    ensures a[..] == ShiftedNormalised(old(a[..]), shift, filtSum)
  {
    var i := 0;
    while i < a.Length - shift
      invariant 0 <= i <= a.Length - shift
      invariant forall k {:trigger a[k]} :: 0 <= k < i ==> a[k] == Normalise(old(a[k + shift]), filtSum)
      invariant forall k {:trigger a[k]} :: i <= k < a.Length ==> a[k] == old(a[k])
    {
      a[i] := a[i + shift] / filtSum;
      i := i + 1;
    }
  }

  /** The raw inverse transform of the two zero-padded inputs. The FFT
      library is not part of the model: `transform` stands for the forward
      transforms, their elementwise product and the inverse transform. */
  function Raw(larger: seq<real>, smaller: seq<real>, transform: (seq<real>, seq<real>) -> seq<real>): seq<real>
    requires smaller != []
  {
    var size := |larger| + |smaller| - 1;
    transform(ZeroPad(larger, size), ZeroPad(smaller, size))
  }

  /** `fast_convolve(larger, smaller)`. The transform chain is modelled as
      total, so apart from it the only panic is the underflow of
      `result.len() - shift_length` when the raw result is shorter than the
      shift. A zero tap sum would make every sample infinite or NaN, which a
      real cannot represent, so it is excluded. */
  method FastConvolve(larger: seq<real>, smaller: seq<real>, transform: (seq<real>, seq<real>) -> seq<real>)
    returns (r: Result<seq<real>>)
    requires Sum(smaller) != 0.0
    ensures smaller != []
    ensures r.Ok? <==> |smaller| / 2 <= |Raw(larger, smaller, transform)|
    ensures r.Err? ==> r.panic == ArithmeticOverflow
    ensures r.Ok? ==> r.value == ShiftedNormalised(Raw(larger, smaller, transform), |smaller| / 2, Sum(smaller))
  {
    var shiftLength := |smaller| / 2;
    var filtSum := Sum(smaller);
    var size := |larger| + |smaller| - 1;
    var paddedLarger := ZeroPad(larger, size);
    var paddedSmaller := ZeroPad(smaller, size);
    var raw := transform(paddedLarger, paddedSmaller);
    if |raw| < shiftLength {
      return Err(ArithmeticOverflow);
    }
    var result := new real[|raw|](i requires 0 <= i < |raw| => raw[i]);
    assert result[..] == raw;
    ShiftNormalise(result, shiftLength, filtSum);
    return Ok(result[..]);
  }

  // ---------------------------------------------------------------------
  // What the shift achieves, against a reference linear convolution

  /** Tap `i` of `b`, zero outside the kernel. */
  function Tap(b: seq<real>, i: int): real
  {
    if 0 <= i < |b| then b[i] else 0.0
  }

  /** Sample `n` of the linear convolution of `a` and `b`: the sum over `k`
      of `a[k] * b[n - k]`. */
  function ConvAt(a: seq<real>, b: seq<real>, n: int): real
  {
    if a == [] then 0.0 else ConvAt(a[..|a| - 1], b, n) + a[|a| - 1] * Tap(b, n - (|a| - 1))
  }

  /** The linear convolution, `|a| + |b| - 1` samples long. */
  function LinearConvolution(a: seq<real>, b: seq<real>): seq<real>
    requires a != [] && b != []
  {
    seq(|a| + |b| - 1, n => ConvAt(a, b, n))
  }

  /** The convolution vanishes outside its `|a| + |b| - 1` samples: no
      product `a[k] * b[n - k]` has both indices in range there. */
  lemma {:induction false} ConvSupport(a: seq<real>, b: seq<real>, n: int)
    requires n < 0 || n >= |a| + |b| - 1
    ensures ConvAt(a, b, n) == 0.0
  {
    if a != [] {
      ConvSupport(a[..|a| - 1], b, n);
    }
  }

  /** A unit impulse of length `len` at position `p`. */
  function Impulse(len: nat, p: nat): seq<real>
  {
    seq(len, i => if i == p then 1.0 else 0.0)
  }

  /** Convolving with an impulse at `p` delays the kernel by `p` samples. */
  lemma {:induction false} ImpulseDelays(len: nat, p: nat, b: seq<real>, n: int)
    ensures ConvAt(Impulse(len, p), b, n) == if p < len then Tap(b, n - p) else 0.0
  {
    if len > 0 {
      var imp := Impulse(len, p);
      assert imp[..len - 1] == Impulse(len - 1, p);
      ImpulseDelays(len - 1, p, b, n);
    }
  }

  /** The group-delay correction realigns a centred impulse: the corrected,
      normalised response to a unit impulse at position `|b| / 2` is the
      kernel itself divided by its tap sum. */
  lemma ImpulseResponse(b: seq<real>, len: nat, i: nat)
    requires Sum(b) != 0.0 && |b| / 2 < len && i < |b|
    ensures b != []
    ensures var raw := LinearConvolution(Impulse(len, |b| / 2), b);
      i < |raw| - |b| / 2 && ShiftedNormalised(raw, |b| / 2, Sum(b))[i] == b[i] / Sum(b)
  {
    var shift := |b| / 2;
    var raw := LinearConvolution(Impulse(len, shift), b);
    ImpulseDelays(len, shift, b, i + shift);
    assert raw[i + shift] == ConvAt(Impulse(len, shift), b, i + shift);
  }
}
