/** The receiver's reference generator, `blumblumshub` in main.py, which the
    receiver uses to rebuild the transmitted symbols. Python integers are
    unbounded and its `%` rounds the quotient toward minus infinity. */
module PyReference {
  import opened RustCore
  import Symbols

  /** Python's `a % b`: the remainder takes the sign of `b`. */
  function PyMod(a: int, b: int): (r: int)
    requires b != 0
    ensures b > 0 ==> 0 <= r < b
    ensures b < 0 ==> b < r <= 0
  {
    if b > 0 then a % b else -((-a) % (-b))
  }

  /** The running `seed` after `k` turns of the loop: every turn squares it
      mod PQ, and it is never reduced by `maxelem`. */
  function PyState(seed: int, k: nat): int
  {
    if k == 0 then seed else var p := PyState(seed, k - 1); p * p % Symbols.PQ
  }

  /** The number of values `range(0, count)` runs through. */
  function PyLength(count: int): nat
  {
    if count <= 0 then 0 else count
  }

  /** What `list(blumblumshub(count, seed, maxelem))` gives: the state after
      each turn, mod `maxelem`. A zero `maxelem` raises ZeroDivisionError at
      the first value, so only when there is a first value. */
  function PyOutput(count: int, seed: int, maxelem: int): Result<seq<int>>
  {
    if PyLength(count) == 0 then Ok([])
    else if maxelem == 0 then Err(DivisionByZero)
    else Ok(seq(PyLength(count), i requires 0 <= i => PyMod(PyState(seed, i + 1), maxelem)))
  }

  /** The generator run to exhaustion. */
  method PyBlumBlumShub(count: int, seed: int, maxelem: int) returns (r: Result<seq<int>>)
    ensures r == PyOutput(count, seed, maxelem)
  {
    var out: seq<int> := [];
    var s := seed;
    var k := 0;
    while k < count
      invariant 0 <= k <= PyLength(count)
      invariant s == PyState(seed, k)
      invariant |out| == k
      invariant k > 0 ==> maxelem != 0
      invariant forall j :: 0 <= j < k ==> out[j] == PyMod(PyState(seed, j + 1), maxelem)
    {
      s := s * s % Symbols.PQ;
      if maxelem == 0 {
        return Err(DivisionByZero);
      }
      out := out + [PyMod(s, maxelem)];
      k := k + 1;
    }
    if k == 0 {
      return Ok([]);
    }
    ghost var want := PyOutput(count, seed, maxelem).value;
    assert |want| == |out|;
    assert forall j :: 0 <= j < k ==> out[j] == want[j];
    assert out == want;
    return Ok(out);
  }

  /** Exactly `count` values (none for `count <= 0`), each in `[0, maxelem)`. */
  lemma PyOutputShape(count: int, seed: int, maxelem: int)
    requires maxelem > 0
    ensures PyOutput(count, seed, maxelem).Ok?
    ensures |PyOutput(count, seed, maxelem).value| == if count <= 0 then 0 else count
    ensures forall i :: 0 <= i < |PyOutput(count, seed, maxelem).value| ==>
      0 <= PyOutput(count, seed, maxelem).value[i] < maxelem
  {
  }

  /** Python's state after `i + 1` turns is the Rust chain's state `i`. */
  lemma {:induction false} StatesAgree(seed: nat, i: nat)
    ensures PyState(seed, i + 1) == Symbols.State(seed, i)
  {
    if i > 0 {
      StatesAgree(seed, i - 1);
    }
  }

  /** For a positive count, a positive `max` and a seed below 2^32, the
      receiver's reference yields exactly the transmitter's symbols. */
  lemma RustAgreesWithPython(count: u32, seed: u64, max: u32)
    requires count >= 1 && max >= 1 && seed < U32_LIMIT
    ensures Symbols.Output(count, seed, max).Ok?
    ensures PyOutput(count, seed, max).Ok?
    ensures Symbols.Output(count, seed, max).value == PyOutput(count, seed, max).value
  {
    Symbols.SquareFitsU64(seed);
    var rust := Symbols.Output(count, seed, max).value;
    var py := PyOutput(count, seed, max).value;
    forall i | 0 <= i < count
      ensures rust[i] == py[i]
    {
      StatesAgree(seed, i);
    }
  }

  /** The two differ on a zero count: Rust still returns the first symbol,
      Python yields nothing. */
  lemma ZeroCountDiffers(seed: u64, max: u32)
    requires seed * seed < U64_LIMIT && max >= 1
    ensures |Symbols.Output(0, seed, max).value| == 1
    ensures PyOutput(0, seed, max) == Ok([])
  {
  }
}
