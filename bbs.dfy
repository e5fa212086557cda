/** The symbol generator of the transmitter, `blumblumshub` (src/array.rs):
    repeated squaring modulo the constant PQ, each state then reduced modulo
    `max`. Deterministic test-pattern source, not a security primitive. */
module Symbols {
  import opened RustCore

  const PQ: nat := 1754338473

  /** State `i` of the chain: `seed^2 mod PQ`, then each state the square of
      the previous one mod PQ. States are never reduced by `max`. */
  function State(seed: nat, i: nat): (s: nat)
    ensures s < PQ
  {
    if i == 0 then seed * seed % PQ else var p := State(seed, i - 1); p * p % PQ
  }

  /** A number below 2^32 squares to a number below 2^64. */
  lemma SquareFitsU64(x: nat)
    requires x < U32_LIMIT
    ensures x * x < U64_LIMIT
  {
    var m := U32_LIMIT - 1;
    MulMonotone(x, m, x);
    MulMonotone(x, m, m);
    assert m * m < U64_LIMIT;
  }

  /** Every state fits a u32 and its square fits a u64, so the `as u32` cast
      in the loop loses nothing and the u64 product never overflows. */
  lemma StateFits(seed: nat, i: nat)
    ensures State(seed, i) < U32_LIMIT
    ensures State(seed, i) * State(seed, i) < U64_LIMIT
  {
    SquareFitsU64(State(seed, i));
  }

  /** The number of values `blumblumshub` returns: the first state is
      pushed before the loop, so at least one. */
  function OutputLength(count: u32): nat
  {
    if count == 0 then 1 else count
  }

  /** What `blumblumshub(count, seed, max)` returns: a panic when `seed * seed`
      overflows u64 or when `max` is zero, otherwise state `i` mod `max` at
      each position `i`. */
  function Output(count: u32, seed: u64, max: u32): Result<seq<u32>>
  {
    if seed * seed >= U64_LIMIT then Err(ArithmeticOverflow)
    else if max == 0 then Err(DivisionByZero)
    else Ok(seq(OutputLength(count), i requires 0 <= i => State(seed, i) % max))
  }

  /** `blumblumshub` as the source runs it: build the whole chain of states,
      then reduce each one in place. */
  method BlumBlumShub(count: u32, seed: u64, max: u32) returns (r: Result<seq<u32>>)
    ensures r == Output(count, seed, max)
  {
    if seed * seed >= U64_LIMIT {
      return Err(ArithmeticOverflow);
    }
    var v: seq<u32> := [seed * seed % PQ];
    var i := 1;
    while i < count
      invariant 1 <= i <= OutputLength(count) && |v| == i
      invariant forall k :: 0 <= k < i ==> v[k] == State(seed, k)
    {
      StateFits(seed, i - 1);
      var prev: u64 := v[i - 1];
      v := v + [prev * prev % PQ];
      i := i + 1;
    }
    assert |v| == OutputLength(count);
    var j := 0;
    while j < |v|
      invariant 0 <= j <= |v| == OutputLength(count)
      invariant j > 0 ==> max > 0
      invariant forall k :: 0 <= k < j ==> v[k] == State(seed, k) % max
      invariant forall k :: j <= k < |v| ==> v[k] == State(seed, k)
    {
      if max == 0 {
        return Err(DivisionByZero);
      }
      v := v[j := v[j] % max];
      j := j + 1;
    }
    ghost var want := Output(count, seed, max).value;
    assert |want| == |v|;
    assert forall k :: 0 <= k < |v| ==> v[k] == want[k];
    assert v == want;
    return Ok(v);
  }

  /** Every symbol is below `max`, and there are `count` of them, or one when
      `count` is zero. */
  lemma OutputShape(count: u32, seed: u64, max: u32)
    requires seed * seed < U64_LIMIT && max > 0
    ensures Output(count, seed, max).Ok?
    ensures |Output(count, seed, max).value| == if count == 0 then 1 else count
    ensures forall i :: 0 <= i < |Output(count, seed, max).value| ==> Output(count, seed, max).value[i] < max
  {
  }

  /** The outputs follow the squaring recurrence on the unreduced states:
      consecutive symbols come from a state and its square mod PQ. */
  lemma OutputRecurrence(count: u32, seed: u64, max: u32, i: nat)
    requires seed * seed < U64_LIMIT && max > 0 && i + 1 < count
    ensures Output(count, seed, max).Ok?
    ensures Output(count, seed, max).value[i] == State(seed, i) % max
    ensures Output(count, seed, max).value[i + 1] == State(seed, i) * State(seed, i) % PQ % max
  {
  }

  /** A zero seed degenerates to the all-zero chain. */
  lemma {:induction false} ZeroSeedState(i: nat)
    ensures State(0, i) == 0
  {
    if i > 0 {
      ZeroSeedState(i - 1);
    }
  }

  /** With seed 0 every symbol is 0. */
  lemma ZeroSeedDegenerates(count: u32, max: u32)
    requires max > 0
    ensures Output(count, 0, max).Ok?
    ensures forall i :: 0 <= i < |Output(count, 0, max).value| ==> Output(count, 0, max).value[i] == 0
  {
    forall i | 0 <= i < OutputLength(count) {
      ZeroSeedState(i);
    }
  }
}
