/** Fixed-length tuples (bonelab/Tuple.hpp).

    `Tuple<N,T>` is a sequence of length N >= 1.  The index-wise arithmetic
    is modelled on `real` elements (the floating-point spacings and origins
    it is used for); the folds are modelled on `int` elements (the index
    tuples they are used for and that the tests exercise).  `long_product`
    folds in the 64-bit unsigned `size_t`, which is written out explicitly. */
module Tuple {

  type RTuple = s: seq<real> | |s| >= 1 witness [0.0]
  type ITuple = s: seq<int> | |s| >= 1 witness [0]

  // ---------------------------------------------------------------------
  // Comparison (Tuple.hpp:120-133)

  /** operator==: scans for the first differing component. */
  method Equal<T(==)>(a: seq<T>, b: seq<T>) returns (r: bool)
    requires |a| == |b|
    ensures r <==> a == b
  {
    var i := 0;
    while i < |a|
      invariant 0 <= i <= |a|
      invariant a[..i] == b[..i]
    {
      if a[i] != b[i] {
        return false;
      }
      i := i + 1;
    }
    assert a == a[..i] && b == b[..i];
    return true;
  }

  /** operator!=: scans for a differing component; exactly the negation of ==. */
  method NotEqual<T(==)>(a: seq<T>, b: seq<T>) returns (r: bool)
    requires |a| == |b|
    ensures r <==> a != b
  {
    var i := 0;
    while i < |a|
      invariant 0 <= i <= |a|
      invariant a[..i] == b[..i]
    {
      if a[i] != b[i] {
        return true;
      }
      i := i + 1;
    }
    assert a == a[..i] && b == b[..i];
    return false;
  }

  // ---------------------------------------------------------------------
  // Index-wise arithmetic (Tuple.hpp:135-141, 559-773)

  function Neg(a: RTuple): (r: RTuple)
    ensures |r| == |a| && forall i :: 0 <= i < |a| ==> r[i] == -a[i]
  {
    seq(|a|, i requires 0 <= i < |a| => -a[i])
  }

  function Add(a: RTuple, b: RTuple): (r: RTuple)
    requires |a| == |b|
    ensures |r| == |a| && forall i :: 0 <= i < |a| ==> r[i] == a[i] + b[i]
  {
    seq(|a|, i requires 0 <= i < |a| => a[i] + b[i])
  }

  function Sub(a: RTuple, b: RTuple): (r: RTuple)
    requires |a| == |b|
    ensures |r| == |a| && forall i :: 0 <= i < |a| ==> r[i] == a[i] - b[i]
  {
    seq(|a|, i requires 0 <= i < |a| => a[i] - b[i])
  }

  function Mul(a: RTuple, b: RTuple): (r: RTuple)
    requires |a| == |b|
    ensures |r| == |a| && forall i :: 0 <= i < |a| ==> r[i] == a[i] * b[i]
  {
    seq(|a|, i requires 0 <= i < |a| => a[i] * b[i])
  }

  function Div(a: RTuple, b: RTuple): (r: RTuple)
    requires |a| == |b|
    requires forall i :: 0 <= i < |b| ==> b[i] != 0.0
    ensures |r| == |a| && forall i :: 0 <= i < |a| ==> r[i] == a[i] / b[i]
  {
    seq(|a|, i requires 0 <= i < |a| => a[i] / b[i])
  }

  function AddScalar(a: RTuple, s: real): (r: RTuple)
    ensures |r| == |a| && forall i :: 0 <= i < |a| ==> r[i] == a[i] + s
  {
    seq(|a|, i requires 0 <= i < |a| => a[i] + s)
  }

  /** The scalar subtracted from every element; also used for sequences
      that are not tuples (pixel rows, sample vectors). */
  function SubScalar(a: seq<real>, s: real): (r: seq<real>)
    ensures |r| == |a| && forall i :: 0 <= i < |a| ==> r[i] == a[i] - s
  {
    seq(|a|, i requires 0 <= i < |a| => a[i] - s)
  }

  /** Both `x*a` and `a*x` multiply every component by the scalar. */
  function Scale(x: real, a: RTuple): (r: RTuple)
    ensures |r| == |a| && forall i :: 0 <= i < |a| ==> r[i] == x * a[i]
  {
    seq(|a|, i requires 0 <= i < |a| => x * a[i])
  }

  function DivScalar(a: RTuple, s: real): (r: RTuple)
    requires s != 0.0
    ensures |r| == |a| && forall i :: 0 <= i < |a| ==> r[i] == a[i] / s
  {
    seq(|a|, i requires 0 <= i < |a| => a[i] / s)
  }

  /** The index-wise operators invert one another component by component. */
  lemma {:induction false} ArithmeticInverses(a: RTuple, b: RTuple, s: real)
    requires |a| == |b|
    ensures Sub(Add(a, b), b) == a
    ensures Add(a, Neg(b)) == Sub(a, b)
    ensures Neg(Neg(a)) == a
    ensures SubScalar(AddScalar(a, s), s) == a
  {
  }

  /** Dividing out a scale factor or an index-wise factor restores the tuple. */
  lemma {:induction false} DivisionInverses(a: RTuple, b: RTuple, s: real)
    requires |a| == |b|
    ensures s != 0.0 ==> DivScalar(Scale(s, a), s) == a
    ensures (forall i :: 0 <= i < |b| ==> b[i] != 0.0) ==> Div(Mul(a, b), b) == a
  {
    if s != 0.0 {
      forall i | 0 <= i < |a|
        ensures DivScalar(Scale(s, a), s)[i] == a[i]
      {
        assert (s * a[i]) / s == a[i];
      }
    }
    if forall i :: 0 <= i < |b| ==> b[i] != 0.0 {
      forall i | 0 <= i < |a|
        ensures Div(Mul(a, b), b)[i] == a[i]
      {
        assert (a[i] * b[i]) / b[i] == a[i];
      }
    }
  }

  // ---------------------------------------------------------------------
  // Folds (Tuple.hpp:353-377, 776-793)

  /** sum: left fold with +, starting from element 0. */
  function Sum(a: ITuple): int
    decreases |a|
  {
    if |a| == 1 then a[0] else Sum(a[..|a| - 1]) + a[|a| - 1]
  }

  /** product: left fold with *, starting from element 0. */
  function Product(a: ITuple): int
    decreases |a|
  {
    if |a| == 1 then a[0] else Product(a[..|a| - 1]) * a[|a| - 1]
  }

  /** dot: left fold of the pairwise products, starting from a[0]*b[0]. */
  function Dot(a: ITuple, b: ITuple): int
    requires |a| == |b|
    decreases |a|
  {
    if |a| == 1 then a[0] * b[0] else Dot(a[..|a| - 1], b[..|b| - 1]) + a[|a| - 1] * b[|b| - 1]
  }

  /** Independent right-to-left reference sum. */
  function SumFrom(a: seq<int>, i: nat): int
    requires i <= |a|
    decreases |a| - i
  {
    if i == |a| then 0 else a[i] + SumFrom(a, i + 1)
  }

  lemma {:induction false} SumFromAppend(a: seq<int>, x: int, i: nat)
    requires i <= |a|
    ensures SumFrom(a + [x], i) == SumFrom(a, i) + x
    decreases |a| - i
  {
    if i < |a| {
      SumFromAppend(a, x, i + 1);
    }
  }

  /** The left fold agrees with the reference sum of all components. */
  lemma {:induction false} SumIsTotal(a: ITuple)
    ensures Sum(a) == SumFrom(a, 0)
    decreases |a|
  {
    if |a| > 1 {
      var init := a[..|a| - 1];
      SumIsTotal(init);
      SumFromAppend(init, a[|a| - 1], 0);
      assert init + [a[|a| - 1]] == a;
    } else {
      assert SumFrom(a, 1) == 0;
    }
  }

  /** The sum of two tuples added index-wise is the sum of their sums. */
  lemma {:induction false} SumAdditive(a: ITuple, b: ITuple, c: ITuple)
    requires |a| == |b| == |c|
    requires forall i :: 0 <= i < |a| ==> c[i] == a[i] + b[i]
    ensures Sum(c) == Sum(a) + Sum(b)
    decreases |a|
  {
    if |a| > 1 {
      SumAdditive(a[..|a| - 1], b[..|b| - 1], c[..|c| - 1]);
    }
  }

  /** dot(a, b) is the sum of the index-wise product tuple. */
  lemma {:induction false} DotIsSumOfProducts(a: ITuple, b: ITuple, c: ITuple)
    requires |a| == |b| == |c|
    requires forall i :: 0 <= i < |a| ==> c[i] == a[i] * b[i]
    ensures Dot(a, b) == Sum(c)
    decreases |a|
  {
    if |a| > 1 {
      DotIsSumOfProducts(a[..|a| - 1], b[..|b| - 1], c[..|c| - 1]);
    }
  }

  /** Dot is symmetric in its arguments. */
  lemma {:induction false} DotSymmetric(a: ITuple, b: ITuple)
    requires |a| == |b|
    ensures Dot(a, b) == Dot(b, a)
    decreases |a|
  {
    if |a| > 1 {
      DotSymmetric(a[..|a| - 1], b[..|b| - 1]);
    }
  }

  /** A product is zero exactly when some component is zero. */
  lemma {:induction false} ProductZero(a: ITuple)
    ensures Product(a) == 0 <==> exists i :: 0 <= i < |a| && a[i] == 0
    decreases |a|
  {
    if |a| > 1 {
      var init := a[..|a| - 1];
      ProductZero(init);
      if Product(a) == 0 {
        if Product(init) == 0 {
          var i :| 0 <= i < |init| && init[i] == 0;
          assert a[i] == 0;
        } else {
          assert a[|a| - 1] == 0;
        }
      } else {
        forall i | 0 <= i < |a|
          ensures a[i] != 0
        {
          if i < |a| - 1 {
            assert init[i] == a[i];
          }
        }
      }
    }
  }

  /** A product of positive components is positive. */
  lemma {:induction false} ProductPositive(a: ITuple)
    requires forall i :: 0 <= i < |a| ==> a[i] > 0
    ensures Product(a) > 0
    decreases |a|
  {
    if |a| > 1 {
      ProductPositive(a[..|a| - 1]);
    }
  }

  const SizeTModulus: int := 0x1_0000_0000_0000_0000

  /** long_product: the same left fold carried out in size_t, so every step
      (including the conversion of element 0) reduces modulo 2^64. */
  function LongProduct(a: ITuple): (r: int)
    ensures 0 <= r < SizeTModulus
    decreases |a|
  {
    if |a| == 1 then a[0] % SizeTModulus
    else (LongProduct(a[..|a| - 1]) * (a[|a| - 1] % SizeTModulus)) % SizeTModulus
  }

  /** Whenever the exact product of non-negative components fits in size_t,
      long_product equals it: no overflow happens. */
  lemma {:induction false} LongProductExact(a: ITuple)
    requires forall i :: 0 <= i < |a| ==> a[i] >= 0
    requires forall k :: 1 <= k <= |a| ==> Product(a[..k]) < SizeTModulus
    ensures LongProduct(a) == Product(a)
    decreases |a|
  {
    assert a[..|a|] == a;
    if |a| == 1 {
      assert a[..1] == a;
    } else {
      var init := a[..|a| - 1];
      var x := a[|a| - 1];
      forall k | 1 <= k <= |init|
        ensures Product(init[..k]) < SizeTModulus
      {
        assert init[..k] == a[..k];
      }
      LongProductExact(init);
      ProductNonNegative(init);
      LongProductStep(LongProduct(init), Product(init), x);
    }
  }

  /** One size_t multiplication step is exact when the exact result fits. */
  lemma {:induction false} LongProductStep(lp: int, p: int, x: int)
    requires lp == p && p >= 0 && x >= 0 && p * x < SizeTModulus
    ensures (lp * (x % SizeTModulus)) % SizeTModulus == p * x
  {
    if p > 0 {
      MulAtLeast(p, x);
      assert x % SizeTModulus == x;
    }
  }

  lemma {:induction false} MulAtLeast(p: int, x: int)
    requires p >= 1 && x >= 0
    ensures x <= p * x
  {
  }

  lemma {:induction false} ProductNonNegative(a: ITuple)
    requires forall i :: 0 <= i < |a| ==> a[i] >= 0
    ensures Product(a) >= 0
    decreases |a|
  {
    if |a| > 1 {
      ProductNonNegative(a[..|a| - 1]);
    }
  }

  /** The documented case: 2^30 * 2^30 does not overflow in long_product. */
  lemma {:induction false} LongProductOfTwoGiga()
    ensures LongProduct([0x4000_0000, 0x4000_0000]) == 1152921504606846976
  {
    var a: ITuple := [0x4000_0000, 0x4000_0000];
    assert a[..1] == [0x4000_0000];
  }

  // ---------------------------------------------------------------------
  // reverse (Tuple.hpp:796-813)

  /** reverse: the loop stores a[i] at N-1-i. */
  method Reverse<T>(a: seq<T>) returns (b: seq<T>)
    requires |a| >= 1
    ensures |b| == |a|
    ensures forall i :: 0 <= i < |a| ==> b[|a| - 1 - i] == a[i]
  {
    b := a;
    var i := 0;
    while i < |a|
      invariant 0 <= i <= |a| && |b| == |a|
      invariant forall k :: 0 <= k < i ==> b[|a| - 1 - k] == a[k]
      invariant forall j :: 0 <= j < |a| - i ==> b[j] == a[j]
    {
      b := b[|a| - 1 - i := a[i]];
      i := i + 1;
    }
  }

  /** Reference reversal as a comprehension. */
  function Reversed<T>(a: seq<T>): (r: seq<T>)
    ensures |r| == |a|
  {
    seq(|a|, i requires 0 <= i < |a| => a[|a| - 1 - i])
  }

  /** Reversing twice restores the tuple. */
  lemma {:induction false} ReverseInvolution<T>(a: seq<T>)
    ensures Reversed(Reversed(a)) == a
  {
  }
}
