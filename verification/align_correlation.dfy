/** The score the alignment plugin maximises: the normalised cross
    correlation of the processed first and last projections
    (tools/imagej/Align_Projections/src/Align_Projections.java,
    computeCrossCorrelation).

    Pixels are `real`.  Math.sqrt is not modelled: the standard deviations
    are parameters whose squares are the variances.  The final division
    has no guard; when its divisor is zero the double result is NaN, here
    None. */
module AlignCorrelation {
  import opened Wrappers
  import LinearFit
  import Tuple

  /** The mean of the N pixels. */
  function Mean(a: seq<real>): real
    requires |a| > 0
  {
    LinearFit.Sum(a, |a|) / |a| as real
  }

  /** The variance as the plugin computes it: the mean square less the
      square of the mean. */
  function Variance(a: seq<real>): real
    requires |a| > 0
  {
    var m := Mean(a);
    LinearFit.SumSqr(a, |a|) / |a| as real - m * m
  }

  /** sa is what Math.sqrt returns for the variance of a. */
  predicate IsStdDev(a: seq<real>, sa: real)
  {
    |a| > 0 ==> sa >= 0.0 && sa * sa == Variance(a)
  }

  /** The sum of the products of the deviations from the means. */
  function CoDev(a: seq<real>, b: seq<real>): real
    requires |a| == |b| > 0
  {
    LinearFit.SumProd(Tuple.SubScalar(a, Mean(a)), Tuple.SubScalar(b, Mean(b)), |a|)
  }

  /** The divisor of computeCrossCorrelation: N sa sb. */
  function Divisor(n: nat, sa: real, sb: real): real
  {
    (n as real * sa) * sb
  }

  /** The final quotient of computeCrossCorrelation. */
  function Quotient(p: real, d: real): real
    requires d != 0.0
  {
    p / d
  }

  /** computeCrossCorrelation: CoDev over N sa sb.  It is NaN exactly when
      there are no pixels or a standard deviation is zero (NaNIffConstant:
      one image is constant), and otherwise lies in [-1, 1]. */
  function CrossCorrelation(a: seq<real>, b: seq<real>, sa: real, sb: real): (r: Option<real>)
    requires |a| == |b| && IsStdDev(a, sa) && IsStdDev(b, sb)
    ensures r.None? <==> |a| == 0 || sa == 0.0 || sb == 0.0
    ensures r.Some? ==> -1.0 <= r.value <= 1.0
  {
    if |a| == 0 then None
    else
      ZeroDivisor(|a|, sa, sb);
      if Divisor(|a|, sa, sb) == 0.0 then None
      else
        CorrelationBounded(a, b, sa, sb);
        Some(Quotient(CoDev(a, b), Divisor(|a|, sa, sb)))
  }

  lemma {:induction false} ZeroDivisor(n: nat, sa: real, sb: real)
    requires n > 0 && sa >= 0.0 && sb >= 0.0
    ensures Divisor(n, sa, sb) == 0.0 <==> sa == 0.0 || sb == 0.0
  {
    if sa != 0.0 && sb != 0.0 {
      ProductPositive(n as real, sa);
      ProductPositive(n as real * sa, sb);
    }
  }

  /** The correlation is NaN exactly when there are no pixels or one of
      the images is constant. */
  lemma {:induction false} NaNIffConstant(a: seq<real>, b: seq<real>, sa: real, sb: real)
    requires |a| == |b| > 0 && IsStdDev(a, sa) && IsStdDev(b, sb)
    ensures CrossCorrelation(a, b, sa, sb).None? <==>
              (forall i :: 0 <= i < |a| ==> a[i] == a[0]) || (forall i :: 0 <= i < |b| ==> b[i] == b[0])
  {
    ZeroVarianceIffConstant(a);
    ZeroVarianceIffConstant(b);
    SquareZeroIff(sa);
    SquareZeroIff(sb);
  }

  lemma {:induction false} SquareZeroIff(d: real)
    ensures d * d == 0.0 <==> d == 0.0
  {
    if d * d == 0.0 {
      SquareZero(d);
    }
  }

  // ---------------------------------------------------------------------
  // Variance

  /** The sum of the squared deviations from c is SqDev. */
  lemma {:induction false} SumSqrDev(a: seq<real>, c: real, n: nat)
    requires n <= |a|
    ensures LinearFit.SumSqr(Tuple.SubScalar(a, c), n) == LinearFit.SqDev(a, n, c)
  {
    if n > 0 {
      SumSqrDev(a, c, n - 1);
    }
  }

  /** N times the variance is the sum of the squared deviations from the
      mean. */
  lemma {:induction false} VarianceIsSqDev(a: seq<real>)
    requires |a| > 0
    ensures |a| as real * Variance(a) == LinearFit.SqDev(a, |a|, Mean(a))
  {
    var n, m := |a| as real, Mean(a);
    var s, q := LinearFit.Sum(a, |a|), LinearFit.SumSqr(a, |a|);
    LinearFit.SqDevExpand(a, |a|, m);
    assert s == n * m;
    assert n * (q / n - m * m) == q - n * (m * m);
    assert q - 2.0 * (m * s) + n * (m * m) == q - n * (m * m);
  }

  /** The variance is never negative, so Math.sqrt always has a real
      answer. */
  lemma {:induction false} VarianceNonNegative(a: seq<real>)
    requires |a| > 0
    ensures Variance(a) >= 0.0
  {
    VarianceIsSqDev(a);
    LinearFit.SqDevNonNegative(a, |a|, Mean(a));
  }

  /** The variance is zero exactly when every pixel has the same value. */
  lemma {:induction false} ZeroVarianceIffConstant(a: seq<real>)
    requires |a| > 0
    ensures Variance(a) == 0.0 <==> forall i :: 0 <= i < |a| ==> a[i] == a[0]
  {
    if Variance(a) == 0.0 {
      ZeroVarianceIsConstant(a);
    }
    if forall i :: 0 <= i < |a| ==> a[i] == a[0] {
      ConstantHasZeroVariance(a);
    }
  }

  lemma {:induction false} ZeroVarianceIsConstant(a: seq<real>)
    requires |a| > 0 && Variance(a) == 0.0
    ensures forall i :: 0 <= i < |a| ==> a[i] == a[0]
  {
    var m := Mean(a);
    VarianceIsSqDev(a);
    forall i | 0 <= i < |a|
      ensures a[i] == a[0]
    {
      LinearFit.SqDevAtLeast(a, |a|, m, i);
      LinearFit.SqDevAtLeast(a, |a|, m, 0);
      SquareZero(a[i] - m);
      SquareZero(a[0] - m);
    }
  }

  lemma {:induction false} ConstantHasZeroVariance(a: seq<real>)
    requires |a| > 0 && forall i :: 0 <= i < |a| ==> a[i] == a[0]
    ensures Variance(a) == 0.0
  {
    var m := Mean(a);
    VarianceIsSqDev(a);
    LinearFit.SumConst(a, a[0], |a|);
    assert m == a[0];
    LinearFit.SqDevZero(a, |a|, m);
  }

  lemma {:induction false} SquareZero(d: real)
    requires d * d <= 0.0
    ensures d == 0.0
  {
    LinearFit.SquareNonNegative(d);
    ZeroFactor(d, d);
  }

  lemma {:induction false} ZeroFactor(x: real, y: real)
    requires x * y == 0.0
    ensures x == 0.0 || y == 0.0
  {
  }

  lemma {:induction false} ProductPositive(u: real, v: real)
    requires u > 0.0 && v > 0.0
    ensures u * v > 0.0
  {
  }

  // ---------------------------------------------------------------------
  // Cauchy-Schwarz

  /** v^2 a - 2 u v p + u^2 b: the sum of the squares of v x - u y when
      a, p and b are the sums of x^2, x y and y^2. */
  function Form(a: real, p: real, b: real, u: real, v: real): real
  {
    v * v * a - (u * v * p + u * v * p) + u * u * b
  }

  lemma {:induction false} QuadraticFormNonNegative(x: seq<real>, y: seq<real>, n: nat, u: real, v: real)
    requires |x| == |y| && n <= |x|
    ensures Form(LinearFit.SumSqr(x, n), LinearFit.SumProd(x, y, n), LinearFit.SumSqr(y, n), u, v) >= 0.0
  {
    if n > 0 {
      QuadraticFormNonNegative(x, y, n - 1, u, v);
      assert LinearFit.SumSqr(x, n) == LinearFit.SumSqr(x, n - 1) + x[n - 1] * x[n - 1];
      assert LinearFit.SumProd(x, y, n) == LinearFit.SumProd(x, y, n - 1) + x[n - 1] * y[n - 1];
      assert LinearFit.SumSqr(y, n) == LinearFit.SumSqr(y, n - 1) + y[n - 1] * y[n - 1];
      QuadraticFormStep(LinearFit.SumSqr(x, n - 1), LinearFit.SumProd(x, y, n - 1), LinearFit.SumSqr(y, n - 1),
                        x[n - 1], y[n - 1], u, v);
    } else {
      QuadraticFormZero(u, v);
    }
  }

  lemma {:induction false} QuadraticFormZero(u: real, v: real)
    ensures Form(0.0, 0.0, 0.0, u, v) >= 0.0
  {
  }

  lemma {:induction false} QuadraticFormStep(a: real, p: real, b: real, s: real, r: real, u: real, v: real)
    requires Form(a, p, b, u, v) >= 0.0
    ensures Form(a + s * s, p + s * r, b + r * r, u, v) >= 0.0
  {
    FormAdditive(a, p, b, s * s, s * r, r * r, u, v);
    FormOfProducts(s, r, u, v);
    LinearFit.SquareNonNegative(v * s - u * r);
  }

  /** The form is linear in its first three arguments. */
  lemma {:induction false} FormAdditive(a: real, p: real, b: real, a': real, p': real, b': real, u: real, v: real)
    ensures Form(a + a', p + p', b + b', u, v) == Form(a, p, b, u, v) + Form(a', p', b', u, v)
  {
  }

  /** The form of one pair is a square. */
  lemma {:induction false} FormOfProducts(s: real, r: real, u: real, v: real)
    ensures Form(s * s, s * r, r * r, u, v) == (v * s - u * r) * (v * s - u * r)
  {
  }

  /** (sum x y)^2 <= (sum x^2) (sum y^2). */
  lemma {:induction false} CauchySchwarz(x: seq<real>, y: seq<real>, n: nat)
    requires |x| == |y| && n <= |x|
    ensures LinearFit.SumProd(x, y, n) * LinearFit.SumProd(x, y, n)
            <= LinearFit.SumSqr(x, n) * LinearFit.SumSqr(y, n)
  {
    var sx, p, sy := LinearFit.SumSqr(x, n), LinearFit.SumProd(x, y, n), LinearFit.SumSqr(y, n);
    SumSqrNonNegative(y, n);
    if sy > 0.0 {
      QuadraticFormNonNegative(x, y, n, p, sy);
      FormAtOptimum(sx, p, sy);
    } else if p != 0.0 {
      var t := (sx + 1.0) / (p + p);
      QuadraticFormNonNegative(x, y, n, t, 1.0);
      FormDegenerate(sx, p, sy, t);
    } else {
      ZeroProductBound(sx, sy);
    }
  }

  lemma {:induction false} ZeroProductBound(sx: real, sy: real)
    requires sy == 0.0
    ensures 0.0 * 0.0 <= sx * sy
  {
  }

  /** At u = p, v = sy the form is sy (sx sy - p^2). */
  lemma {:induction false} FormAtOptimum(sx: real, p: real, sy: real)
    requires sy > 0.0 && Form(sx, p, sy, p, sy) >= 0.0
    ensures p * p <= sx * sy
  {
    assert Form(sx, p, sy, p, sy) == sy * (sx * sy - p * p);
    if sx * sy - p * p < 0.0 {
      ProductNegative(sy, sx * sy - p * p);
    }
  }

  lemma {:induction false} ProductNegative(a: real, b: real)
    requires a > 0.0 && b < 0.0
    ensures a * b < 0.0
  {
  }

  /** With no y, the form at v = 1 goes negative somewhere unless p = 0. */
  lemma {:induction false} FormDegenerate(sx: real, p: real, sy: real, t: real)
    requires sy == 0.0 && p != 0.0 && t == (sx + 1.0) / (p + p)
    ensures Form(sx, p, sy, t, 1.0) < 0.0
  {
    assert t * (p + p) == sx + 1.0;
  }

  lemma {:induction false} SumSqrNonNegative(x: seq<real>, n: nat)
    requires n <= |x|
    ensures LinearFit.SumSqr(x, n) >= 0.0
  {
    if n > 0 {
      SumSqrNonNegative(x, n - 1);
      LinearFit.SquareNonNegative(x[n - 1]);
    }
  }

  /** The sum of the squared deviations is N times the variance. */
  lemma {:induction false} SumSqrOfDev(a: seq<real>, sa: real)
    requires |a| > 0 && IsStdDev(a, sa)
    ensures LinearFit.SumSqr(Tuple.SubScalar(a, Mean(a)), |a|) == |a| as real * (sa * sa)
  {
    SumSqrDev(a, Mean(a), |a|);
    VarianceIsSqDev(a);
  }

  /** The correlation lies in [-1, 1]. */
  lemma {:induction false} CorrelationBounded(a: seq<real>, b: seq<real>, sa: real, sb: real)
    requires |a| == |b| > 0 && IsStdDev(a, sa) && IsStdDev(b, sb)
    requires Divisor(|a|, sa, sb) != 0.0
    ensures -1.0 <= Quotient(CoDev(a, b), Divisor(|a|, sa, sb)) <= 1.0
  {
    CauchySchwarz(Tuple.SubScalar(a, Mean(a)), Tuple.SubScalar(b, Mean(b)), |a|);
    SumSqrOfDev(a, sa);
    SumSqrOfDev(b, sb);
    ScaledBound(CoDev(a, b), |a|, sa, sb);
  }

  /** p^2 <= (n sa^2)(n sb^2) puts p / (n sa sb) in [-1, 1]. */
  lemma {:induction false} ScaledBound(p: real, n: nat, sa: real, sb: real)
    requires n > 0 && sa >= 0.0 && sb >= 0.0 && Divisor(n, sa, sb) != 0.0
    requires p * p <= (n as real * (sa * sa)) * (n as real * (sb * sb))
    ensures -1.0 <= Quotient(p, Divisor(n, sa, sb)) <= 1.0
  {
    var d := Divisor(n, sa, sb);
    SquareOfProduct(n as real, sa, sb);
    ZeroDivisor(n, sa, sb);
    ProductPositive(n as real, sa);
    ProductPositive(n as real * sa, sb);
    RatioBounded(p, d);
  }

  lemma {:induction false} SquareOfProduct(n: real, sa: real, sb: real)
    ensures (n * (sa * sa)) * (n * (sb * sb)) == ((n * sa) * sb) * ((n * sa) * sb)
  {
  }

  lemma {:induction false} RatioBounded(p: real, d: real)
    requires d > 0.0 && p * p <= d * d
    ensures -1.0 <= Quotient(p, d) <= 1.0
  {
    assert -d <= p <= d;
    assert p / d * d == p;
  }

  // ---------------------------------------------------------------------
  // Properties

  lemma {:induction false} SumProdSymmetric(x: seq<real>, y: seq<real>, n: nat)
    requires n <= |x| && n <= |y|
    ensures LinearFit.SumProd(x, y, n) == LinearFit.SumProd(y, x, n)
  {
    if n > 0 {
      SumProdSymmetric(x, y, n - 1);
    }
  }

  lemma {:induction false} SumProdSelf(x: seq<real>, n: nat)
    requires n <= |x|
    ensures LinearFit.SumProd(x, x, n) == LinearFit.SumSqr(x, n)
  {
    if n > 0 {
      SumProdSelf(x, n - 1);
    }
  }

  /** The correlation does not depend on the order of the images. */
  lemma {:induction false} CorrelationSymmetric(a: seq<real>, b: seq<real>, sa: real, sb: real)
    requires |a| == |b| && IsStdDev(a, sa) && IsStdDev(b, sb)
    ensures CrossCorrelation(a, b, sa, sb) == CrossCorrelation(b, a, sb, sa)
  {
    if |a| > 0 {
      SumProdSymmetric(Tuple.SubScalar(a, Mean(a)), Tuple.SubScalar(b, Mean(b)), |a|);
      DivisorSymmetric(|a|, sa, sb);
    }
  }

  lemma {:induction false} DivisorSymmetric(n: nat, sa: real, sb: real)
    ensures Divisor(n, sa, sb) == Divisor(n, sb, sa)
  {
  }

  /** An image that is not constant correlates perfectly with itself. */
  lemma {:induction false} SelfCorrelationIsOne(a: seq<real>, sa: real)
    requires IsStdDev(a, sa) && |a| > 0 && Variance(a) != 0.0
    ensures CrossCorrelation(a, a, sa, sa) == Some(1.0)
  {
    var n := |a|;
    SumProdSelf(Tuple.SubScalar(a, Mean(a)), n);
    SumSqrOfDev(a, sa);
    SelfDivisor(n, sa);
    assert sa != 0.0;
    ZeroDivisor(n, sa, sa);
    assert Divisor(n, sa, sa) != 0.0;
    assert CoDev(a, a) == Divisor(n, sa, sa);
    QuotientSelf(Divisor(n, sa, sa));
    assert CrossCorrelation(a, a, sa, sa) == Some(Quotient(CoDev(a, a), Divisor(n, sa, sa)));
  }

  /** N sa sa is N times the variance. */
  lemma {:induction false} SelfDivisor(n: nat, sa: real)
    ensures Divisor(n, sa, sa) == n as real * (sa * sa)
  {
  }

  lemma {:induction false} QuotientSelf(d: real)
    requires d != 0.0
    ensures Quotient(d, d) == 1.0 && Quotient(-d, d) == -1.0
  {
    QuotientOf(-d, d, -1.0);
  }

  lemma {:induction false} QuotientOf(p: real, d: real, q: real)
    requires d != 0.0 && p == q * d
    ensures Quotient(p, d) == q
  {
  }

  /** A constant image has no correlation: the result is NaN. */
  lemma {:induction false} ConstantImageIsNaN(a: seq<real>, b: seq<real>, sa: real, sb: real)
    requires |a| == |b| > 0 && IsStdDev(a, sa) && IsStdDev(b, sb)
    requires forall i :: 0 <= i < |a| ==> a[i] == a[0]
    ensures CrossCorrelation(a, b, sa, sb).None?
  {
    NaNIffConstant(a, b, sa, sb);
  }

  /** An image against its negative correlates to -1. */
  lemma {:induction false} NegatedCorrelationIsMinusOne(a: seq<real>, b: seq<real>, sa: real)
    requires IsStdDev(a, sa) && |a| > 0 && Variance(a) != 0.0
    requires |b| == |a| && forall i :: 0 <= i < |a| ==> b[i] == -a[i]
    ensures IsStdDev(b, sa) && CrossCorrelation(a, b, sa, sa) == Some(-1.0)
  {
    var n := |a|;
    NegatedMeanVariance(a, b);
    var x, y := Tuple.SubScalar(a, Mean(a)), Tuple.SubScalar(b, Mean(b));
    assert forall i :: 0 <= i < n ==> y[i] == -x[i];
    SumProdNegated(x, y, n);
    SumProdSelf(x, n);
    SumSqrOfDev(a, sa);
    SelfDivisor(n, sa);
    assert sa != 0.0;
    ZeroDivisor(n, sa, sa);
    assert CoDev(a, b) == -Divisor(n, sa, sa);
    QuotientSelf(Divisor(n, sa, sa));
    assert CrossCorrelation(a, b, sa, sa) == Some(Quotient(CoDev(a, b), Divisor(n, sa, sa)));
  }

  lemma {:induction false} NegatedMeanVariance(a: seq<real>, b: seq<real>)
    requires |a| == |b| > 0 && forall i :: 0 <= i < |a| ==> b[i] == -a[i]
    ensures Mean(b) == -Mean(a) && Variance(b) == Variance(a)
  {
    NegatedMoments(a, b, |a|);
  }

  lemma {:induction false} NegatedMoments(a: seq<real>, b: seq<real>, n: nat)
    requires n <= |a| == |b| && forall i :: 0 <= i < |a| ==> b[i] == -a[i]
    ensures LinearFit.Sum(b, n) == -LinearFit.Sum(a, n)
    ensures LinearFit.SumSqr(b, n) == LinearFit.SumSqr(a, n)
  {
    if n > 0 {
      NegatedMoments(a, b, n - 1);
    }
  }

  lemma {:induction false} SumProdNegated(x: seq<real>, y: seq<real>, n: nat)
    requires n <= |x| == |y| && forall i :: 0 <= i < |x| ==> y[i] == -x[i]
    ensures LinearFit.SumProd(x, y, n) == -LinearFit.SumProd(x, x, n)
  {
    if n > 0 {
      SumProdNegated(x, y, n - 1);
    }
  }
}
