/** The transmitter glue of the modem (src/main.rs): mapping symbols to
    phases, prepending the header and stretching both branches, summing and
    quantising the channels, and the lazily built pulse-shaping filter.
    Trigonometry is not modelled: a phase is an integer number of
    eighth-turns, and `cos8(p)` / `sin8(p)` stand for the cosine and sine of
    `p * pi / 4` as the float library computes them. */
module Modem {
  import opened RustCore
  import opened VecUtil

  const SAMPLE_RATE: nat := 44100
  const BAUD_RATE: nat := 50
  const USE_PI4: bool := true
  const GAIN: real := 2000.0

  /** `(44100 as f32 * 2.5) as usize`: the product is exact in f32. */
  const SAMPLES: nat := 110250

  /** `(50.0 * 2.5) as u32`: the product is exact in f32. */
  const SYMBOLS: nat := 125

  /** The all-zero header put in front of every symbol stream. */
  const HEADER: seq<u32> := [0, 0, 0, 0, 0, 0, 0, 0]

  /** `(8 as f32 / 50.0 * 44100.0) as usize`: the float product rounds to
      exactly 7056.0, which is `8 * 44100 / 50`. */
  const HEADER_SAMPLES: nat := 7056

  /** Samples per symbol period, `T = 44100.0 / 50.0`, also the half-width
      `DISTANCE` of the filter, in samples. */
  const DISTANCE: real := 882.0

  /** `DISTANCE as usize`: the number of filter taps. */
  const TAPS: nat := 882

  // ---------------------------------------------------------------------
  // angle_to_iq

  /** The angle of symbol `j` at position `index`, in eighth-turns:
      `(j % 4) * pi/2`, plus `pi/4` at even positions. */
  function Phase(index: nat, j: u32): nat
  {
    2 * (j % 4) + (if index % 2 == 0 && USE_PI4 then 1 else 0)
  }

  /** Reading a phase back: the symbol modulo 4 it carries. */
  function SymbolOf(p: nat): nat
  {
    p / 2
  }

  /** Every phase is one of the eight eighth-turns, odd exactly at even
      positions, and it gives back the symbol modulo 4. */
  lemma PhaseRoundTrip(index: nat, j: u32)
    ensures Phase(index, j) < 8
    ensures Phase(index, j) % 2 == 1 <==> index % 2 == 0
    ensures SymbolOf(Phase(index, j)) == j % 4
  {
  }

  /** Two symbols get the same phase exactly when they agree modulo 4 and
      their positions have the same parity. */
  lemma PhaseInjective(index: nat, j: u32, index': nat, j': u32)
    ensures Phase(index, j) == Phase(index', j') <==> (j % 4 == j' % 4 && index % 2 == index' % 2)
  {
    if Phase(index, j) == Phase(index', j') {
      PhaseRoundTrip(index, j);
      PhaseRoundTrip(index', j');
    }
  }

  /** One baseband branch: `trig` of the phase of every symbol. */
  function Branch(angle: seq<u32>, trig: nat -> real): seq<real>
  {
    seq(|angle|, k requires 0 <= k < |angle| => trig(Phase(k, angle[k])))
  }

  /** `angle_to_iq`: one I and one Q value per symbol, in order. */
  method AngleToIq(angle: seq<u32>, cos8: nat -> real, sin8: nat -> real)
    returns (ivec: seq<real>, qvec: seq<real>)
    ensures |ivec| == |angle| && |qvec| == |angle|
    ensures forall k :: 0 <= k < |angle| ==>
      ivec[k] == cos8(Phase(k, angle[k])) && qvec[k] == sin8(Phase(k, angle[k]))
    ensures ivec == Branch(angle, cos8) && qvec == Branch(angle, sin8)
  {
    ivec, qvec := [], [];
    var index := 0;
    while index < |angle|
      invariant 0 <= index <= |angle|
      invariant |ivec| == index && |qvec| == index
      invariant forall k :: 0 <= k < index ==>
        ivec[k] == cos8(Phase(k, angle[k])) && qvec[k] == sin8(Phase(k, angle[k]))
    {
      var eighths := 2 * (angle[index] % 4);
      if index % 2 == 0 && USE_PI4 {
        eighths := eighths + 1;
      }
      ivec := ivec + [cos8(eighths)];
      qvec := qvec + [sin8(eighths)];
      index := index + 1;
    }
  }

  // ---------------------------------------------------------------------
  // generate_signal, up to the pulse shaping

  /** The first part of `generate_signal`: prepend the header, map to I/Q
      and stretch both branches to `num_samples + HEADERSAMPLES` samples. */
  method StretchedBranches(angleData: seq<u32>, numSamples: nat, cos8: nat -> real, sin8: nat -> real)
    returns (isignal: seq<real>, qsignal: seq<real>)
    ensures |isignal| == numSamples + HEADER_SAMPLES && |qsignal| == numSamples + HEADER_SAMPLES
    ensures isignal == Stretch(Branch(HEADER + angleData, cos8), numSamples + HEADER_SAMPLES)
    ensures qsignal == Stretch(Branch(HEADER + angleData, sin8), numSamples + HEADER_SAMPLES)
  {
    var data := HEADER + angleData;
    var ivec, qvec := AngleToIq(data, cos8, sin8);
    var ri := Repeat(ivec, numSamples + HEADER_SAMPLES);
    var rq := Repeat(qvec, numSamples + HEADER_SAMPLES);
    isignal, qsignal := ri.value, rq.value;
  }

  /** The header symbols have phases 1, 0, 1, 0, ... eighth-turns. */
  lemma HeaderPhases(angleData: seq<u32>, cos8: nat -> real, k: nat)
    requires k < |HEADER|
    ensures Phase(k, (HEADER + angleData)[k]) == if k % 2 == 0 then 1 else 0
    ensures k < |Branch(HEADER + angleData, cos8)| &&
      Branch(HEADER + angleData, cos8)[k] == cos8(if k % 2 == 0 then 1 else 0)
  {
    assert (HEADER + angleData)[k] == 0;
  }

  /** A sample inside the first eight holds of `per` samples lies inside the
      whole repeats and belongs to one of the eight header symbols. */
  lemma HeaderIndex(s: nat, per: nat, len: nat) returns (q: nat)
    requires |HEADER| <= len && s < |HEADER| * per
    ensures 0 < per && s < per * len && q == s / per && q < |HEADER|
  {
    MulMonotone(|HEADER|, len, per);
    QuotientBelow(s, per, |HEADER|);
    q := s / per;
  }

  /** The stretched I branch opens with the header: each of the eight header
      symbols is held for `per` samples (`per` the whole repeats of the
      stretch), alternating between the phases 1 and 0. */
  lemma PreambleSamples(angleData: seq<u32>, numSamples: nat, cos8: nat -> real, s: nat)
    requires var n := numSamples + HEADER_SAMPLES;
      s < |HEADER| * (n / (|HEADER| + |angleData|))
    ensures var n := numSamples + HEADER_SAMPLES;
      var per := n / (|HEADER| + |angleData|);
      0 < per && s < n &&
      Stretch(Branch(HEADER + angleData, cos8), n)[s] == cos8(if (s / per) % 2 == 0 then 1 else 0)
  {
    var data := HEADER + angleData;
    var n := numSamples + HEADER_SAMPLES;
    var per := n / |data|;
    var b := Branch(data, cos8);
    var q := HeaderIndex(s, per, |data|);
    StretchAt(b, n, s);
    HeaderPhases(angleData, cos8, q);
  }

  /** With the transmitter's own settings (2.5 s, 125 symbols) every one of
      the 133 symbols is held for exactly 882 samples, one symbol period,
      and the stretch needs no remainder. */
  lemma MainTiming()
    ensures var n := SAMPLES + HEADER_SAMPLES;
      n / (|HEADER| + SYMBOLS) == 882 && n % (|HEADER| + SYMBOLS) == 0
  {
  }

  // ---------------------------------------------------------------------
  // send_chunks_audio

  /** All chunks as long as the first. */
  predicate SameLength(chunks: seq<seq<real>>)
    requires chunks != []
  {
    forall c :: c in chunks ==> |c| == |chunks[0]|
  }

  /** Sample `k` of the chunks added in order, starting from zero. */
  function ColumnSum(chunks: seq<seq<real>>, k: nat): real
    requires forall c :: c in chunks ==> k < |c|
  {
    if chunks == [] then 0.0 else ColumnSum(chunks[..|chunks| - 1], k) + chunks[|chunks| - 1][k]
  }

  /** `send_chunks_audio`: the chunks must all have the first one's length;
      each output sample is the sum of the chunks' samples times GAIN, cast
      to i16. With no chunks at all, `chunks[0]` is out of bounds. */
  method SendChunksAudio(chunks: seq<seq<real>>) returns (r: Result<seq<i16>>)
    ensures chunks == [] ==> r == Err(IndexOutOfBounds)
    ensures chunks != [] && !SameLength(chunks) ==> r == Err(AssertionFailed)
    ensures chunks != [] && SameLength(chunks) ==>
      r.Ok? && |r.value| == |chunks[0]| &&
      forall k :: 0 <= k < |r.value| ==> r.value[k] == CastToI16(ColumnSum(chunks, k) * GAIN)
  {
    var same := true;
    var c := 0;
    while c < |chunks|
      invariant 0 <= c <= |chunks|
      invariant same <==> forall d :: 0 <= d < c ==> |chunks[d]| == |chunks[0]|
    {
      same := same && |chunks[c]| == |chunks[0]|;
      c := c + 1;
    }
    if !same {
      return Err(AssertionFailed);
    }
    if |chunks| == 0 {
      return Err(IndexOutOfBounds);
    }
    var buf := new i16[|chunks[0]|];
    var ind := 0;
    while ind < buf.Length
      invariant 0 <= ind <= buf.Length
      invariant forall k :: 0 <= k < ind ==> buf[k] == CastToI16(ColumnSum(chunks, k) * GAIN)
    {
      var val := 0.0;
      var j := 0;
      while j < |chunks|
        invariant 0 <= j <= |chunks|
        invariant val == ColumnSum(chunks[..j], ind)
      {
        assert chunks[..j + 1][..j] == chunks[..j];
        val := val + chunks[j][ind];
        j := j + 1;
      }
      assert chunks[..|chunks|] == chunks;
      buf[ind] := CastToI16(val * GAIN);
      ind := ind + 1;
    }
    return Ok(buf[..]);
  }

  /** Summing is compositional: the column sum of two groups of channels is
      the sum of their column sums. */
  lemma {:induction false} ColumnSumSplit(a: seq<seq<real>>, b: seq<seq<real>>, k: nat)
    requires forall c :: c in a ==> k < |c|
    requires forall c :: c in b ==> k < |c|
    ensures ColumnSum(a + b, k) == ColumnSum(a, k) + ColumnSum(b, k)
  {
    if b != [] {
      var init := b[..|b| - 1];
      assert (a + b)[..|a + b| - 1] == a + init;
      ColumnSumSplit(a, init, k);
    } else {
      assert a + b == a;
    }
  }

  /** A single chunk is passed through: its sample times GAIN, quantised. */
  lemma SingleChunk(chunk: seq<real>, k: nat)
    requires k < |chunk|
    ensures ColumnSum([chunk], k) == chunk[k]
  {
    assert [chunk][..0] == [];
  }

  // ---------------------------------------------------------------------
  // rrc_filter: the kernel is built on first use and then reused

  /** The kernel `generate(tap, -DISTANCE..DISTANCE, DISTANCE as usize)`
      builds, for the root-raised-cosine closure `tap`. */
  function Kernel(tap: real -> real): seq<real>
  {
    seq(TAPS, i requires 0 <= i => tap(GridPoint(-DISTANCE, DISTANCE, TAPS, i)))
  }

  /** The kernel has 882 taps, tap `i` taken at `2 * i - 882`: the taps are
      two sample periods apart and cover `[-882, 882)`. */
  lemma KernelGrid(tap: real -> real, i: nat)
    requires i < TAPS
    ensures |Kernel(tap)| == TAPS
    ensures Kernel(tap)[i] == tap((2 * i - 882) as real)
  {
    assert GridPoint(-DISTANCE, DISTANCE, TAPS, i) == (2 * i - 882) as real;
  }

  /** The process-wide `RRCPTR` slot and the closure it is filled from. */
  class FilterCache {
    const tap: real -> real
    var slot: Option<seq<real>>

    /** Whatever the slot holds is the kernel of `tap`. */
    ghost predicate Valid()
      reads this
    {
      slot.Some? ==> slot.value == Kernel(tap)
    }

    /** The slot starts empty. */
    constructor (tap: real -> real)
      ensures this.tap == tap && slot == None && Valid()
    {
      this.tap := tap;
      slot := None;
    }

    /** `rrc_filter()`: when the slot is empty, build the kernel, store it and
        return it; otherwise return the stored kernel without rebuilding. */
    method RrcFilter() returns (kernel: seq<real>)
      requires Valid()
      modifies this
      ensures Valid()
      ensures kernel == Kernel(tap) && |kernel| == TAPS
      ensures slot == Some(kernel)
      ensures old(slot).Some? ==> slot == old(slot)
    {
      match slot {
        case None =>
          var built := Generate(tap, -DISTANCE, DISTANCE, TAPS);
          assert built == Kernel(tap);
          slot := Some(built);
          kernel := built;
        case Some(stored) =>
          kernel := stored;
      }
    }
  }
}
