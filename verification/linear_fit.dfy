/** Linear least squares (source/util/LinearFit.cpp, LinearFit.hpp).

    The fit of y = a + b x assembles the 2 x 2 normal equations
        N a + Sx b = Sy,   Sx a + Sxx b = Sxy
    from the sums of x, x^2, y and x y, and solves them by Cramer's rule
    with det = N Sxx - Sx^2.  Values are reals. */
module LinearFit {
  import opened Wrappers
  import ArrayModel

  // ---------------------------------------------------------------------
  // The sums, as left folds over the first n elements

  /** sum: x[0] + x[1] + ... + x[n-1]. */
  function Sum(x: seq<real>, n: nat): real
    requires n <= |x|
  {
    if n == 0 then 0.0 else Sum(x, n - 1) + x[n - 1]
  }

  /** sum_sqr: the sum of the squares. */
  function SumSqr(x: seq<real>, n: nat): real
    requires n <= |x|
  {
    if n == 0 then 0.0 else SumSqr(x, n - 1) + x[n - 1] * x[n - 1]
  }

  /** sum_prod: the sum of the products x[i] y[i]. */
  function SumProd(x: seq<real>, y: seq<real>, n: nat): real
    requires n <= |x| && n <= |y|
  {
    if n == 0 then 0.0 else SumProd(x, y, n - 1) + x[n - 1] * y[n - 1]
  }

  /** The loop of sum(). */
  method SumLoop(x: seq<real>) returns (t: real)
    ensures t == Sum(x, |x|)
  {
    t := 0.0;
    var i := 0;
    while i < |x|
      invariant 0 <= i <= |x| && t == Sum(x, i)
    {
      t := t + x[i];
      i := i + 1;
    }
  }

  /** The loop of sum_sqr(). */
  method SumSqrLoop(x: seq<real>) returns (t: real)
    ensures t == SumSqr(x, |x|)
  {
    t := 0.0;
    var i := 0;
    while i < |x|
      invariant 0 <= i <= |x| && t == SumSqr(x, i)
    {
      t := t + x[i] * x[i];
      i := i + 1;
    }
  }

  /** The loop of sum_prod(). */
  method SumProdLoop(x: seq<real>, y: seq<real>) returns (t: real)
    requires |x| <= |y|
    ensures t == SumProd(x, y, |x|)
  {
    t := 0.0;
    var i := 0;
    while i < |x|
      invariant 0 <= i <= |x| && t == SumProd(x, y, i)
    {
      t := t + x[i] * y[i];
      i := i + 1;
    }
  }

  // ---------------------------------------------------------------------
  // The determinant is positive once two x values differ

  /** det = N Sxx - Sx^2 over the first n values. */
  function Det(x: seq<real>, n: nat): real
    requires n <= |x|
  {
    n as real * SumSqr(x, n) - Sum(x, n) * Sum(x, n)
  }

  /** The squared deviations of the first n values from c. */
  function SqDev(x: seq<real>, n: nat, c: real): real
    requires n <= |x|
  {
    if n == 0 then 0.0 else SqDev(x, n - 1, c) + (x[n - 1] - c) * (x[n - 1] - c)
  }

  lemma {:induction false} SqDevExpand(x: seq<real>, n: nat, c: real)
    requires n <= |x|
    ensures SqDev(x, n, c) == SumSqr(x, n) - 2.0 * (c * Sum(x, n)) + n as real * (c * c)
  {
    if n > 0 {
      SqDevExpand(x, n - 1, c);
      var v := x[n - 1];
      SquareExpand(v, c);
      Distribute(c, Sum(x, n - 1), v);
      var cc := c * c;
      assert n as real * cc == (n - 1) as real * cc + cc;
    }
  }

  lemma {:induction false} SquareExpand(v: real, c: real)
    ensures (v - c) * (v - c) == v * v - 2.0 * (c * v) + c * c
  {
  }

  lemma {:induction false} Distribute(c: real, s: real, v: real)
    ensures c * (s + v) == c * s + c * v
  {
  }

  /** Adding a value v to the data adds its squared deviations from the
      earlier values to det. */
  lemma {:induction false} DetStep(x: seq<real>, n: nat)
    requires n < |x|
    ensures Det(x, n + 1) == Det(x, n) + SqDev(x, n, x[n])
  {
    var v, q, s := x[n], SumSqr(x, n), Sum(x, n);
    SqDevExpand(x, n, v);
    assert SumSqr(x, n + 1) == q + v * v && Sum(x, n + 1) == s + v;
    DetIdentity(n as real, q, s, v);
  }

  /** (k + 1)(q + v^2) - (s + v)^2 == (k q - s^2) + (q - 2 v s + k v^2) */
  lemma {:induction false} DetIdentity(k: real, q: real, s: real, v: real)
    ensures (k + 1.0) * (q + v * v) - (s + v) * (s + v)
         == (k * q - s * s) + (q - 2.0 * (v * s) + k * (v * v))
  {
  }

  lemma {:induction false} SqDevNonNegative(x: seq<real>, n: nat, c: real)
    requires n <= |x|
    ensures SqDev(x, n, c) >= 0.0
  {
    if n > 0 {
      SqDevNonNegative(x, n - 1, c);
      SquareNonNegative(x[n - 1] - c);
    }
  }

  lemma {:induction false} SquareNonNegative(d: real)
    ensures d * d >= 0.0
  {
  }

  lemma {:induction false} DetNonNegative(x: seq<real>, n: nat)
    requires n <= |x|
    ensures Det(x, n) >= 0.0
  {
    if n > 0 {
      DetNonNegative(x, n - 1);
      DetStep(x, n - 1);
      SqDevNonNegative(x, n - 1, x[n - 1]);
    }
  }

  /** The squared deviations from c bound each single one from above. */
  lemma {:induction false} SqDevAtLeast(x: seq<real>, n: nat, c: real, i: nat)
    requires i < n <= |x|
    ensures SqDev(x, n, c) >= (x[i] - c) * (x[i] - c)
  {
    SqDevNonNegative(x, n - 1, c);
    if i < n - 1 {
      SqDevAtLeast(x, n - 1, c, i);
      SquareNonNegative(x[n - 1] - c);
    }
  }

  /** Deviations from c of values that all equal c vanish. */
  lemma {:induction false} SqDevZero(x: seq<real>, n: nat, c: real)
    requires n <= |x|
    requires forall k :: 0 <= k < n ==> x[k] == c
    ensures SqDev(x, n, c) == 0.0
  {
    if n > 0 {
      SqDevZero(x, n - 1, c);
      ZeroSquare(x[n - 1] - c);
    }
  }

  lemma {:induction false} ZeroSquare(d: real)
    requires d == 0.0
    ensures d * d == 0.0
  {
  }

  lemma {:induction false} DetMonotone(x: seq<real>, m: nat, n: nat)
    requires m <= n <= |x|
    ensures Det(x, m) <= Det(x, n)
  {
    if m < n {
      DetMonotone(x, m, n - 1);
      DetStep(x, n - 1);
      SqDevNonNegative(x, n - 1, x[n - 1]);
    }
  }

  /** Any two of the first n values bound det from below by the square of
      their difference. */
  lemma {:induction false} DetAtLeast(x: seq<real>, n: nat, i: nat, j: nat)
    requires i < j < n <= |x|
    ensures Det(x, n) >= (x[i] - x[j]) * (x[i] - x[j])
  {
    SqDevAtLeast(x, j, x[j], i);
    DetNonNegative(x, j);
    DetStep(x, j);
    DetMonotone(x, j + 1, n);
  }

  /** Values that are all equal make det zero: Cramer's rule then divides
      by zero. */
  lemma {:induction false} DetZeroOfConstant(x: seq<real>, n: nat, v: real)
    requires n <= |x|
    requires forall k :: 0 <= k < n ==> x[k] == v
    ensures Det(x, n) == 0.0
  {
    if n > 0 {
      DetZeroOfConstant(x, n - 1, v);
      DetStep(x, n - 1);
      SqDevZero(x, n - 1, x[n - 1]);
    }
  }

  // ---------------------------------------------------------------------
  // The fit

  /** The normal equations of the fit over the first n values. */
  predicate Normal(x: seq<real>, y: seq<real>, n: nat, a: real, b: real)
    requires n <= |x| && n <= |y|
  {
    NormalEquations(n as real, Sum(x, n), SumSqr(x, n), Sum(y, n), SumProd(x, y, n), a, b)
  }

  /** k a + sx b = sy and sx a + sxx b = sxy. */
  predicate NormalEquations(k: real, sx: real, sxx: real, sy: real, sxy: real, a: real, b: real)
  {
    k * a + sx * b == sy && sx * a + sxx * b == sxy
  }

  /** Cramer's rule for [[p, q], [q, r]] (a, b) = (u, w). */
  function Cramer(p: real, q: real, r: real, u: real, w: real): (ab: (real, real))
    requires p * r - q * q != 0.0
    ensures p * ab.0 + q * ab.1 == u && q * ab.0 + r * ab.1 == w
  {
    var det := p * r - q * q;
    var a := (r * u - q * w) / det;
    var b := (p * w - q * u) / det;
    CramerSolves(p, q, r, u, w, det, a, b);
    (a, b)
  }

  lemma {:induction false} CramerSolves(p: real, q: real, r: real, u: real, w: real, det: real, a: real, b: real)
    requires det == p * r - q * q && det != 0.0
    requires a == (r * u - q * w) / det && b == (p * w - q * u) / det
    ensures p * a + q * b == u && q * a + r * b == w
  {
    assert a * det == r * u - q * w;
    assert b * det == p * w - q * u;
    assert (p * a + q * b) * det == u * det;
    assert (q * a + r * b) * det == w * det;
  }

  /** The normal equations have one solution when det is not zero. */
  lemma {:induction false} CramerUnique(p: real, q: real, r: real, a: real, b: real, a0: real, b0: real)
    requires p * r - q * q != 0.0
    requires p * a + q * b == p * a0 + q * b0 && q * a + r * b == q * a0 + r * b0
    ensures a == a0 && b == b0
  {
    var da, db := a - a0, b - b0;
    assert p * da + q * db == 0.0 && q * da + r * db == 0.0;
    assert da * (p * r - q * q) == r * (p * da + q * db) - q * (q * da + r * db);
    assert db * (p * r - q * q) == p * (q * da + r * db) - q * (p * da + q * db);
  }

  /** The solution of the normal equations by Cramer's rule. */
  function Solution(x: seq<real>, y: seq<real>): (ab: (real, real))
    requires |x| == |y| && Det(x, |x|) != 0.0
    ensures Normal(x, y, |x|, ab.0, ab.1)
  {
    var n := |x|;
    Cramer(n as real, Sum(x, n), SumSqr(x, n), Sum(y, n), SumProd(x, y, n))
  }

  /** The LinearFit constructor: the asserts, then the sums and Cramer's
      rule; the result is (constant term, linear term). */
  method Fit(x: ArrayModel.Arr, y: ArrayModel.Arr) returns (r: Result<(real, real)>)
    requires x.constructed && y.constructed && |x.data| == |y.data| > 1 ==> Det(x.data, |x.data|) != 0.0
    ensures r.Ok? <==> x.constructed && y.constructed && |x.data| == |y.data| && |x.data| > 1
    ensures r.Err? ==> r.msg == AssertionMessage
    ensures r.Ok? ==> r.value == Solution(x.data, y.data)
  {
    if !x.constructed || !y.constructed || |x.data| != |y.data| || |x.data| <= 1 {
      return Err(AssertionMessage);
    }
    var n := |x.data|;
    var sx := SumLoop(x.data);
    var sxx := SumSqrLoop(x.data);
    var sy := SumLoop(y.data);
    var sxy := SumProdLoop(x.data, y.data);
    var ab := Cramer(n as real, sx, sxx, sy, sxy);
    r := Ok(ab);
  }

  // ---------------------------------------------------------------------
  // Data on a line, up to residuals orthogonal to 1 and x

  // Linearity of the sums, one shape at a time

  lemma {:induction false} SumAdd(u: seq<real>, w: seq<real>, s: seq<real>, n: nat)
    requires n <= |u| == |w| == |s|
    requires forall i :: 0 <= i < |s| ==> s[i] == u[i] + w[i]
    ensures Sum(s, n) == Sum(u, n) + Sum(w, n)
  {
    if n > 0 {
      SumAdd(u, w, s, n - 1);
    }
  }

  lemma {:induction false} SumConst(s: seq<real>, c: real, n: nat)
    requires n <= |s| && forall i :: 0 <= i < |s| ==> s[i] == c
    ensures Sum(s, n) == n as real * c
  {
    if n > 0 {
      SumConst(s, c, n - 1);
      CountStep((n - 1) as real, c, Sum(s, n - 1), n as real, Sum(s, n));
    }
  }

  lemma {:induction false} CountStep(k: real, c: real, p: real, k1: real, p1: real)
    requires p == k * c && k1 == k + 1.0 && p1 == p + c
    ensures p1 == k1 * c
  {
  }

  lemma {:induction false} SumScaled(x: seq<real>, s: seq<real>, c: real, n: nat)
    requires n <= |x| == |s| && forall i :: 0 <= i < |s| ==> s[i] == c * x[i]
    ensures Sum(s, n) == Sum(x, n) * c
  {
    if n > 0 {
      SumScaled(x, s, c, n - 1);
      ScaleStep(c, Sum(x, n - 1), Sum(s, n - 1), x[n - 1], s[n - 1]);
    }
  }

  /** q = p c and w = v c give q + w = (p + v) c. */
  lemma {:induction false} ScaleStep(c: real, p: real, q: real, v: real, w: real)
    requires q == p * c && w == v * c
    ensures q + w == (p + v) * c
  {
  }

  lemma {:induction false} SumProdAdd(x: seq<real>, u: seq<real>, w: seq<real>, s: seq<real>, n: nat)
    requires n <= |x| == |u| == |w| == |s|
    requires forall i :: 0 <= i < |s| ==> s[i] == u[i] + w[i]
    ensures SumProd(x, s, n) == SumProd(x, u, n) + SumProd(x, w, n)
  {
    if n > 0 {
      SumProdAdd(x, u, w, s, n - 1);
      var v := x[n - 1];
      assert v * s[n - 1] == v * u[n - 1] + v * w[n - 1];
    }
  }

  lemma {:induction false} SumProdConst(x: seq<real>, s: seq<real>, c: real, n: nat)
    requires n <= |x| == |s| && forall i :: 0 <= i < |s| ==> s[i] == c
    ensures SumProd(x, s, n) == Sum(x, n) * c
  {
    if n > 0 {
      SumProdConst(x, s, c, n - 1);
      var v := x[n - 1];
      assert v * s[n - 1] == v * c;
      ScaleStep(c, Sum(x, n - 1), SumProd(x, s, n - 1), v, v * s[n - 1]);
    }
  }

  lemma {:induction false} SumProdScaled(x: seq<real>, s: seq<real>, c: real, n: nat)
    requires n <= |x| == |s| && forall i :: 0 <= i < |s| ==> s[i] == c * x[i]
    ensures SumProd(x, s, n) == SumSqr(x, n) * c
  {
    if n > 0 {
      SumProdScaled(x, s, c, n - 1);
      var v := x[n - 1];
      assert v * s[n - 1] == (v * v) * c;
      ScaleStep(c, SumSqr(x, n - 1), SumProd(x, s, n - 1), v * v, v * s[n - 1]);
    }
  }

  /** y[i] = a0 + b0 x[i] + e[i] for every i: y is the line a0 + b0 x
      plus the residuals e. */
  predicate OnLine(x: seq<real>, y: seq<real>, e: seq<real>, a0: real, b0: real)
    requires |x| == |y| == |e|
  {
    forall i :: 0 <= i < |x| ==> y[i] == a0 + b0 * x[i] + e[i]
  }

  /** sy = k a0 + sx b0 + se and sxy = sx a0 + sxx b0 + sxe: the sums of
      y = a0 + b0 x + e split into the line's part and the residuals'. */
  predicate SplitSums(k: real, sx: real, sxx: real, sy: real, sxy: real, se: real, sxe: real, a0: real, b0: real)
  {
    sy == k * a0 + sx * b0 + se && sxy == sx * a0 + sxx * b0 + sxe
  }

  /** The sums of y = a0 + b0 x + e: the split of y into its constant,
      linear and residual parts carries over to each sum. */
  lemma {:induction false} SumsOfLine(x: seq<real>, y: seq<real>, e: seq<real>, n: nat, a0: real, b0: real)
    requires n <= |x| == |y| == |e|
    requires OnLine(x, y, e, a0, b0)
    ensures SplitSums(n as real, Sum(x, n), SumSqr(x, n), Sum(y, n), SumProd(x, y, n), Sum(e, n), SumProd(x, e, n), a0, b0)
  {
    var ax := seq(|x|, _ => a0);
    var bx := seq(|x|, i requires 0 <= i < |x| => b0 * x[i]);
    var t := seq(|x|, i requires 0 <= i < |x| => bx[i] + e[i]);
    SumAdd(ax, t, y, n);
    SumAdd(bx, e, t, n);
    SumConst(ax, a0, n);
    SumScaled(x, bx, b0, n);
    SumProdAdd(x, ax, t, y, n);
    SumProdAdd(x, bx, e, t, n);
    SumProdConst(x, ax, a0, n);
    SumProdScaled(x, bx, b0, n);
  }

  /** When y departs from a0 + b0 x by residuals that sum to 0 and are
      uncorrelated with x (symmetric residuals, or none), the fit returns
      exactly (a0, b0). */
  lemma {:induction false} FitRecoversLine(x: seq<real>, y: seq<real>, e: seq<real>, a0: real, b0: real, a: real, b: real)
    requires |x| == |y| == |e| && Det(x, |x|) != 0.0
    requires OnLine(x, y, e, a0, b0)
    requires Sum(e, |x|) == 0.0 && SumProd(x, e, |x|) == 0.0
    requires Normal(x, y, |x|, a, b)
    ensures a == a0 && b == b0
  {
    LineIsNormal(x, y, e, a0, b0);
    NormalUnique(x, y, |x|, a, b, a0, b0);
  }

  /** The line itself solves the normal equations when the residuals sum
      to zero and are uncorrelated with x. */
  lemma {:induction false} LineIsNormal(x: seq<real>, y: seq<real>, e: seq<real>, a0: real, b0: real)
    requires |x| == |y| == |e|
    requires OnLine(x, y, e, a0, b0)
    requires Sum(e, |x|) == 0.0 && SumProd(x, e, |x|) == 0.0
    ensures Normal(x, y, |x|, a0, b0)
  {
    var n := |x|;
    SumsOfLine(x, y, e, n, a0, b0);
    ZeroResidualsSolve(n as real, Sum(x, n), SumSqr(x, n), Sum(y, n), SumProd(x, y, n),
                       Sum(e, n), SumProd(x, e, n), a0, b0);
  }

  /** The normal equations of a0 + b0 x, once the residual sums vanish. */
  lemma {:induction false} ZeroResidualsSolve(k: real, sx: real, sxx: real, sy: real, sxy: real, se: real, sxe: real, a0: real, b0: real)
    requires SplitSums(k, sx, sxx, sy, sxy, se, sxe, a0, b0)
    requires se == 0.0 && sxe == 0.0
    ensures NormalEquations(k, sx, sxx, sy, sxy, a0, b0)
  {
  }

  /** With det not zero the normal equations have one solution. */
  lemma {:induction false} NormalUnique(x: seq<real>, y: seq<real>, n: nat, a: real, b: real, a0: real, b0: real)
    requires n <= |x| && n <= |y| && Det(x, n) != 0.0
    requires Normal(x, y, n, a, b) && Normal(x, y, n, a0, b0)
    ensures a == a0 && b == b0
  {
    CramerUnique(n as real, Sum(x, n), SumSqr(x, n), a, b, a0, b0);
  }

  /** Exactly collinear data: no residuals. */
  lemma {:induction false} FitOfCollinear(x: seq<real>, y: seq<real>, a0: real, b0: real, a: real, b: real)
    requires |x| == |y| && Det(x, |x|) != 0.0
    requires forall i :: 0 <= i < |x| ==> y[i] == a0 + b0 * x[i]
    requires Normal(x, y, |x|, a, b)
    ensures a == a0 && b == b0
  {
    var e := seq(|x|, _ => 0.0);
    ZeroSums(x, e, |x|);
    FitRecoversLine(x, y, e, a0, b0, a, b);
  }

  lemma {:induction false} ZeroSums(x: seq<real>, e: seq<real>, n: nat)
    requires n <= |x| == |e| && forall i :: 0 <= i < |e| ==> e[i] == 0.0
    ensures Sum(e, n) == 0.0 && SumProd(x, e, n) == 0.0
  {
    if n > 0 {
      ZeroSums(x, e, n - 1);
    }
  }
}
