/** Vector utilities of the modem (src/array.rs): elementwise multiply,
    sample-and-hold stretch, and sampling a function on a grid. Floats are
    modelled as exact reals. */
module VecUtil {
  import opened RustCore

  // ---------------------------------------------------------------------
  // multiply: elementwise product, in place

  /** The elementwise product of two equal-length sequences. */
  function Product<T>(a: seq<T>, b: seq<T>, mul: (T, T) -> T): (r: seq<T>)
    requires |a| == |b|
    ensures |r| == |a|
    ensures forall i :: 0 <= i < |a| ==> r[i] == mul(a[i], b[i])
  {
    if a == [] then [] else Product(a[..|a| - 1], b[..|b| - 1], mul) + [mul(a[|a| - 1], b[|b| - 1])]
  }

  /** `multiply(one, two)`: panics unless the lengths agree, otherwise
      overwrites each `one[i]` by `one[i] * two[i]`. The two slices never alias
      (the borrow rules forbid it). */
  method Multiply<T>(one: array<T>, two: array<T>, mul: (T, T) -> T) returns (o: Outcome)
    requires one != two
    modifies one
    ensures o == (if one.Length == two.Length then Pass else Fail(AssertionFailed))
    ensures o.Pass? ==> one[..] == Product(old(one[..]), two[..], mul)
    ensures o.Fail? ==> one[..] == old(one[..])
    ensures two[..] == old(two[..])
  {
    if one.Length != two.Length {
      return Fail(AssertionFailed);
    }
    var i := 0;
    while i < one.Length
      invariant 0 <= i <= one.Length
      invariant forall k :: 0 <= k < i ==> one[k] == mul(old(one[k]), two[k])
      invariant forall k :: i <= k < one.Length ==> one[k] == old(one[k])
    {
      one[i] := mul(one[i], two[i]);
      i := i + 1;
    }
    return Pass;
  }

  /** The behaviour on the worked example `[2,3,4] * [5,6,7]`. */
  lemma ProductExample()
    ensures Product([2.0, 3.0, 4.0], [5.0, 6.0, 7.0], (x: real, y: real) => x * y) == [10.0, 18.0, 28.0]
  {
  }

  // ---------------------------------------------------------------------
  // repeat: sample-and-hold stretch

  /** `n` copies of `x`. */
  function Replicate<T>(x: T, n: nat): (r: seq<T>)
    ensures |r| == n
    ensures forall k :: 0 <= k < n ==> r[k] == x
  {
    if n == 0 then [] else Replicate(x, n - 1) + [x]
  }

  /** Each element of `v`, in order, held for `per` positions. */
  function Hold<T>(v: seq<T>, per: nat): seq<T>
  {
    if v == [] then [] else Hold(v[..|v| - 1], per) + Replicate(v[|v| - 1], per)
  }

  /** Reference definition of the stretch: every element held
      `n / |v|` times, then `n % |v|` extra copies of the last element. */
  function Stretch<T>(v: seq<T>, n: nat): (r: seq<T>)
    requires v != []
    ensures |r| == n
  {
    HoldLength(v, n / |v|);
    Hold(v, n / |v|) + Replicate(v[|v| - 1], n % |v|)
  }

  /** `repeat(v, desired_len)`. An empty `v` divides by zero. */
  method Repeat<T>(v: seq<T>, desiredLen: nat) returns (r: Result<seq<T>>)
    ensures v == [] ==> r == Err(DivisionByZero)
    ensures v != [] ==> r == Ok(Stretch(v, desiredLen))
  {
    if |v| == 0 {
      return Err(DivisionByZero);
    }
    var perElem := desiredLen / |v|;
    var remainder := desiredLen % |v|;
    var out: seq<T> := [];
    var j := 0;
    while j < |v|
      invariant 0 <= j <= |v|
      invariant out == Hold(v[..j], perElem)
    {
      var c := 0;
      while c < perElem
        invariant 0 <= c <= perElem
        invariant out == Hold(v[..j], perElem) + Replicate(v[j], c)
      {
        out := out + [v[j]];
        c := c + 1;
      }
      assert v[..j + 1][..j] == v[..j];
      j := j + 1;
    }
    assert v[..|v|] == v;
    var c := 0;
    while c < remainder
      invariant 0 <= c <= remainder
      invariant out == Hold(v, perElem) + Replicate(v[|v| - 1], c)
    {
      out := out + [v[|v| - 1]];
      c := c + 1;
    }
    return Ok(out);
  }

  /** Holding every element `per` times gives `|v| * per` samples. */
  lemma {:induction false} HoldLength<T>(v: seq<T>, per: nat)
    ensures |Hold(v, per)| == |v| * per
  {
    if v != [] {
      HoldLength(v[..|v| - 1], per);
      assert |v| * per == (|v| - 1) * per + per;
    }
  }

  /** Copy `c` of element `j` sits at position `i = j * per + c` of the hold. */
  lemma {:induction false} HoldBlock<T>(v: seq<T>, per: nat, j: nat, c: nat, i: nat)
    requires j < |v| && c < per && i == j * per + c
    ensures i < |Hold(v, per)| && Hold(v, per)[i] == v[j]
  {
    var m := |v| - 1;
    var init := v[..m];
    HoldLength(v, per);
    HoldLength(init, per);
    assert Hold(v, per) == Hold(init, per) + Replicate(v[m], per);
    MulMonotone(j + 1, |v|, per);
    assert (j + 1) * per == j * per + per;
    if j < m {
      HoldBlock(init, per, j, c, i);
      MulMonotone(j + 1, m, per);
      assert init[j] == v[j];
    }
  }

  /** Below `n * per`, the quotient by `per` is below `n`. */
  lemma QuotientBelow(k: nat, per: nat, n: nat)
    requires 0 < per && k < n * per
    ensures 0 <= k / per < n
    ensures k == (k / per) * per + k % per
  {
    var j, c := k / per, k % per;
    assert k == j * per + c;
    if j >= n {
      MulMonotone(n, j, per);
    }
  }

  /** Sample `k` of the hold comes from element `k / per`. */
  lemma HoldAt<T>(v: seq<T>, per: nat, k: nat)
    requires 0 < per && k < |v| * per
    ensures 0 <= k / per < |v| && k < |Hold(v, per)| && Hold(v, per)[k] == v[k / per]
  {
    QuotientBelow(k, per, |v|);
    HoldBlock(v, per, k / per, k % per, k);
  }

  /** Placement of every sample of the stretch: below `per_elem * |v|` the
      sample comes from element `k / per_elem`; from there on every sample is
      the last element of `v`. */
  lemma StretchAt<T>(v: seq<T>, n: nat, k: nat)
    requires v != [] && k < n
    ensures |Stretch(v, n)| == n
    ensures var per := n / |v|;
      k < per * |v| ==> 0 < per && 0 <= k / per < |v| && Stretch(v, n)[k] == v[k / per]
    ensures k >= (n / |v|) * |v| ==> Stretch(v, n)[k] == v[|v| - 1]
  {
    var per := n / |v|;
    var rem := n % |v|;
    assert n == per * |v| + rem;
    assert Stretch(v, n) == Hold(v, per) + Replicate(v[|v| - 1], rem);
    HoldThenTail(v, per, rem, k);
  }

  /** The division-free core of `StretchAt`: whole repeats, then the tail. */
  lemma HoldThenTail<T>(v: seq<T>, per: nat, rem: nat, k: nat)
    requires v != [] && k < per * |v| + rem
    ensures |Hold(v, per)| == per * |v|
    ensures k < per * |v| ==>
      0 < per && 0 <= k / per < |v| && (Hold(v, per) + Replicate(v[|v| - 1], rem))[k] == v[k / per]
    ensures k >= per * |v| ==> (Hold(v, per) + Replicate(v[|v| - 1], rem))[k] == v[|v| - 1]
  {
    HoldLength(v, per);
    assert |Hold(v, per)| == per * |v|;
    if k < per * |v| {
      assert k < |v| * per;
      HoldAt(v, per, k);
    }
  }

  /** A request shorter than `v` gives no whole repeats, only copies of the
      last element. */
  lemma StretchShort<T>(v: seq<T>, n: nat)
    requires v != [] && n < |v|
    ensures Stretch(v, n) == Replicate(v[|v| - 1], n)
  {
    assert n / |v| == 0;
    forall k | 0 <= k < n
      ensures Stretch(v, n)[k] == v[|v| - 1]
    {
      StretchAt(v, n, k);
    }
  }

  /** Two worked examples: `[a,b,c]` to 9 samples and `[a,b]` to 5. */
  lemma StretchExamples<T>(a: T, b: T, c: T)
    ensures Stretch([a, b, c], 9) == [a, a, a, b, b, b, c, c, c]
    ensures Stretch([a, b], 5) == [a, a, b, b, b]
  {
    assert [a, b, c][..2][..1] == [a];
    assert [a, b, c][..2] == [a, b];
    assert [a, b][..1] == [a];
    assert Hold([a], 3) == [a, a, a];
    assert Hold([a, b], 3) == [a, a, a, b, b, b];
    assert Hold([a], 2) == [a, a];
  }

  // ---------------------------------------------------------------------
  // generate: sampling a function on a grid

  /** Grid point `i` of `size` points over `start..end`, in the order the
      source evaluates it: `i / size * (end - start) + start`. */
  function GridPoint(start: real, end: real, size: nat, i: nat): real
    requires size > 0
  {
    (i as real) / (size as real) * (end - start) + start
  }

  /** `generate(func, start..end, size)`. */
  method Generate<T>(func: real -> T, start: real, end: real, size: nat) returns (buf: seq<T>)
    ensures |buf| == size
    ensures forall i :: 0 <= i < size ==> buf[i] == func(GridPoint(start, end, size, i))
  {
    buf := [];
    var i := 0;
    while i < size
      invariant 0 <= i <= size
      invariant |buf| == i
      invariant forall k :: 0 <= k < i ==> buf[k] == func(GridPoint(start, end, size, k))
    {
      var xval := (i as real) / (size as real) * (end - start) + start;
      assert xval == GridPoint(start, end, size, i);
      buf := buf + [func(xval)];
      i := i + 1;
    }
  }

  /** The grid starts at `start` and its points are evenly spaced by
      `(end - start) / size`. */
  lemma GridEvenlySpaced(start: real, end: real, size: nat, i: nat)
    requires size > 0
    ensures GridPoint(start, end, size, 0) == start
    ensures GridPoint(start, end, size, i + 1) - GridPoint(start, end, size, i)
            == (end - start) / (size as real)
  {
    var s := size as real;
    calc {
      GridPoint(start, end, size, i + 1) - GridPoint(start, end, size, i);
      ((i + 1) as real) / s * (end - start) - (i as real) / s * (end - start);
      (((i + 1) as real) / s - (i as real) / s) * (end - start);
      (1.0 / s) * (end - start);
    }
  }

  /** Every grid point lies in the half-open interval `[start, end)`. */
  lemma GridInRange(start: real, end: real, size: nat, i: nat)
    requires start < end && i < size
    ensures start <= GridPoint(start, end, size, i) < end
  {
    var f := (i as real) / (size as real);
    assert 0.0 <= f < 1.0;
    var d := end - start;
    var p := f * d;
    assert GridPoint(start, end, size, i) == p + start;
    assert 0.0 <= p by {
      if f == 0.0 {
        assert p == 0.0;
      }
    }
    assert p < d by {
      var g := 1.0 - f;
      assert 0.0 < g * d;
      assert g * d == d - p;
    }
  }
}
