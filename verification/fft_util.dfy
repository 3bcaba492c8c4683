/** Size helpers used when padding data for an FFT (bonelab/FFT_util.hpp).

    FFT_util.hpp is templated on the integer type; here the type is the
    unbounded `int`, so the shifts `1 << p` never overflow. */
module FFTUtil {

  /** 2^p */
  function Pow2(p: nat): (r: nat)
    ensures r >= 1
  {
    if p == 0 then 1 else 2 * Pow2(p - 1)
  }

  /** 3^b */
  function Pow3(b: nat): (r: nat)
    ensures r >= 1
  {
    if b == 0 then 1 else 3 * Pow3(b - 1)
  }

  /** The numbers with no prime factor other than 2 and 3. */
  function Smooth(a: nat, b: nat): nat
  {
    Pow2(a) * Pow3(b)
  }

  lemma {:induction false} SmoothStep3(a: nat, b: nat)
    ensures Smooth(a, b + 1) == 3 * Smooth(a, b)
  {
  }

  lemma {:induction false} SmoothStep2(a: nat, b: nat)
    ensures Smooth(a + 1, b) == 2 * Smooth(a, b)
  {
  }

  lemma {:induction false} Pow2Monotone(p: nat, q: nat)
    requires p <= q
    ensures Pow2(p) <= Pow2(q)
    decreases q
  {
    if p < q {
      Pow2Monotone(p, q - 1);
    }
  }

  /** A larger power of three never makes a smooth number smaller. */
  lemma {:induction false} SmoothMonotoneInB(a: nat, b: nat, b': nat)
    requires b <= b'
    ensures Smooth(a, b) <= Smooth(a, b')
    decreases b'
  {
    if b < b' {
      SmoothMonotoneInB(a, b, b' - 1);
      SmoothStep3(a, b' - 1);
    }
  }

  lemma {:induction false} SmoothAtLeastPow2(a: nat, b: nat)
    ensures Pow2(a) <= Smooth(a, b)
    decreases b
  {
    if b > 0 {
      SmoothAtLeastPow2(a, b - 1);
      SmoothStep3(a, b - 1);
    }
  }

  /** If b is the least exponent of 3 that reaches n for a fixed power of two,
      then every exponent that reaches n gives a number at least as large. */
  lemma {:induction false} MinimalExponentIsLeast(n: int, a: nat, b: nat, b': nat)
    requires b == 0 || Smooth(a, b - 1) < n
    requires Smooth(a, b') >= n
    ensures Smooth(a, b) <= Smooth(a, b')
  {
    if b' < b {
      SmoothMonotoneInB(a, b', b - 1);
    } else {
      SmoothMonotoneInB(a, b, b');
    }
  }

  /** One step of the descent: halving 2^f 3^b, and multiplying by 3 when
      the half falls below n, keeps b the least exponent that reaches n. */
  lemma {:induction false} HalveStep(n: int, f: nat, b: nat)
    requires f > 0 && Smooth(f, b) >= n && (b == 0 || Smooth(f, b - 1) < n)
    ensures Smooth(f, b) / 2 == Smooth(f - 1, b)
    ensures Smooth(f - 1, b) < n ==> Smooth(f - 1, b) * 3 == Smooth(f - 1, b + 1) >= n
    ensures Smooth(f - 1, b) >= n && b > 0 ==> Smooth(f - 1, b - 1) < n
  {
    SmoothStep2(f - 1, b);
    SmoothStep3(f - 1, b);
    if b > 0 {
      SmoothStep2(f - 1, b - 1);
    }
  }

  /** A bound on 2^f 3^b, with b the least exponent that reaches n, bounds
      every 2^f 3^b' that reaches n. */
  lemma {:induction false} LeastAtLevel(n: int, f: nat, b: nat, best: int)
    requires b == 0 || Smooth(f, b - 1) < n
    requires best <= Smooth(f, b)
    ensures forall b': nat :: Smooth(f, b') >= n ==> best <= Smooth(f, b')
  {
    forall b': nat | Smooth(f, b') >= n
      ensures best <= Smooth(f, b')
    {
      MinimalExponentIsLeast(n, f, b, b');
    }
  }

  /** NextPowerOfTwo: the least p with 2^p >= n (FFT_util.hpp:32-39). */
  method NextPowerOfTwo(n: int) returns (p: nat)
    ensures Pow2(p) >= n
    ensures forall q: nat :: Pow2(q) >= n ==> p <= q
  {
    p := 0;
    while Pow2(p) < n
      invariant p == 0 || Pow2(p - 1) < n
      decreases n - Pow2(p)
    {
      p := p + 1;
    }
    forall q: nat | Pow2(q) >= n
      ensures p <= q
    {
      if q < p {
        Pow2Monotone(q, p - 1);
      }
    }
  }

  /** NextNumberWithFactors2And3: the least number >= n of the form 2^a 3^b
      (FFT_util.hpp:43-58).  Walking the power of two down from
      NextPowerOfTwo(n), `test` is always 2^a 3^b with b the least exponent
      for which it still reaches n; the best of these is the global minimum. */
  method NextNumberWithFactors2And3(n: int) returns (best: int)
    ensures best >= n
    ensures exists a: nat, b: nat :: best == Smooth(a, b)
    ensures forall a: nat, b: nat :: Smooth(a, b) >= n ==> best <= Smooth(a, b)
    ensures forall q: nat :: Pow2(q) >= n ==> best <= Pow2(q)
  {
    var top := NextPowerOfTwo(n);
    var f: nat := top;
    best := Pow2(f);
    var test := best;
    ghost var b: nat := 0;
    ghost var ba: nat, bb: nat := f, 0;
    forall a: nat, b': nat | f <= a <= top && Smooth(a, b') >= n
      ensures best <= Smooth(a, b')
    {
      SmoothAtLeastPow2(a, b');
    }
    while f > 0
      invariant f <= top
      invariant test == Smooth(f, b) && test >= n
      invariant b == 0 || Smooth(f, b - 1) < n
      invariant best == Smooth(ba, bb) && best >= n
      invariant best <= Pow2(top)
      invariant forall a: nat, b': nat :: f <= a <= top && Smooth(a, b') >= n ==> best <= Smooth(a, b')
    {
      HalveStep(n, f, b);
      f := f - 1;
      test := test / 2;
      if test < n {
        test := test * 3;
        b := b + 1;
      }
      if test < best {
        best := test;
        ba, bb := f, b;
      }
      LeastAtLevel(n, f, b, best);
    }
    BelowEveryPower(n, top, best);
  }

  /** A bound on every 2^a 3^b with a <= top that is also at most 2^top
      bounds all of them, and every power of two that reaches n. */
  lemma {:induction false} BelowEveryPower(n: int, top: nat, best: int)
    requires best <= Pow2(top)
    requires forall a: nat, b: nat :: 0 <= a <= top && Smooth(a, b) >= n ==> best <= Smooth(a, b)
    ensures forall a: nat, b: nat :: Smooth(a, b) >= n ==> best <= Smooth(a, b)
    ensures forall q: nat :: Pow2(q) >= n ==> best <= Pow2(q)
  {
    forall a: nat, b: nat | Smooth(a, b) >= n
      ensures best <= Smooth(a, b)
    {
      if a > top {
        Pow2Monotone(top, a);
        SmoothAtLeastPow2(a, b);
      }
    }
    forall q: nat | Pow2(q) >= n
      ensures best <= Pow2(q)
    {
      assert Smooth(q, 0) == Pow2(q);
    }
  }
}
