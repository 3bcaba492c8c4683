/** The convergence test of the projection-alignment tuner
    (tools/imagej/Align_Projections/src/Align_Projections.java,
    ConvergenceCheckerWithManualCancel).

    Two successive objective values p and q have converged when their
    difference is within a relative threshold of the larger magnitude, or
    within an absolute threshold.  A negative threshold switches its test
    off.  The check also reports convergence at once when the user has
    asked the tuner to stop, which is how the optimiser is cancelled. */
module AlignConvergence {

  datatype Checker = Checker(relativeThreshold: real, absoluteThreshold: real)

  /** 2^-n, for the library's machine constants. */
  function Half(n: nat): (h: real)
    ensures 0.0 < h <= 1.0
  {
    if n == 0 then 1.0 else Half(n - 1) * 0.5
  }

  /** Commons Math's MathUtils.EPSILON, 2^-53, and MathUtils.SAFE_MIN,
      2^-1022. */
  function Epsilon(): real { Half(53) }
  function SafeMin(): real { Half(1022) }

  /** The checker built without thresholds: 100 EPSILON relative and
      100 SAFE_MIN absolute. */
  function DefaultChecker(): (c: Checker)
    ensures 0.0 < c.absoluteThreshold < c.relativeThreshold < 0.0001
  {
    HalfDecreasing(53, 1022);
    HalfDecreasing(20, 53);
    HalfTwenty();
    Checker(100.0 * Epsilon(), 100.0 * SafeMin())
  }

  /** The checker of the first, coarse tuning phase. */
  function PhaseOneChecker(): (c: Checker)
    ensures c.relativeThreshold > DefaultChecker().relativeThreshold
    ensures c.absoluteThreshold > DefaultChecker().absoluteThreshold
  {
    Checker(0.0001, 0.0001)
  }

  lemma {:induction false} HalfDecreasing(m: nat, n: nat)
    requires m < n
    ensures Half(n) < Half(m)
    decreases n
  {
    if m < n - 1 {
      HalfDecreasing(m, n - 1);
    }
  }

  lemma {:induction false} HalfTwenty()
    ensures Half(20) == 0.00000095367431640625
  {
    assert Half(5) == 0.03125;
    assert Half(10) == 0.0009765625;
    assert Half(15) == 0.000030517578125;
  }

  function Abs(x: real): (a: real)
    ensures a >= 0.0 && (a == x || a == -x)
  {
    if x < 0.0 then -x else x
  }

  function Max(a: real, b: real): (m: real)
    ensures m >= a && m >= b && (m == a || m == b)
  {
    if a < b then b else a
  }

  /** The relative test: the difference is at most `rel` times the larger
      magnitude. */
  predicate WithinRelative(rel: real, p: real, q: real)
  {
    Abs(p - q) <= Max(Abs(p), Abs(q)) * rel
  }

  predicate WithinAbsolute(abs: real, p: real, q: real)
  {
    Abs(p - q) <= abs
  }

  /** ConvergenceCheckerWithManualCancel.converged, for the previous and
      current objective values p and q. */
  function Converged(c: Checker, stopTuning: bool, p: real, q: real): (r: bool)
    ensures stopTuning ==> r
  {
    if stopTuning then true
    else WithinRelative(c.relativeThreshold, p, q) || WithinAbsolute(c.absoluteThreshold, p, q)
  }

  /** Two equal values have converged unless both tests are off. */
  lemma {:induction false} EqualValuesConverge(c: Checker, p: real)
    requires c.relativeThreshold >= 0.0 || c.absoluteThreshold >= 0.0
    ensures Converged(c, false, p, p)
  {
    if c.absoluteThreshold < 0.0 {
      NonNegativeProduct(Max(Abs(p), Abs(p)), c.relativeThreshold);
    }
  }

  lemma NonNegativeProduct(x: real, y: real)
    requires x >= 0.0 && y >= 0.0
    ensures x * y >= 0.0
  {
  }

  /** The relative test stated without the maximum: it passes when the
      difference is within `rel` of either value's magnitude. */
  lemma {:induction false} RelativeEitherValue(rel: real, p: real, q: real)
    requires rel >= 0.0
    ensures WithinRelative(rel, p, q) <==> Abs(p - q) <= Abs(p) * rel || Abs(p - q) <= Abs(q) * rel
  {
    var m := Max(Abs(p), Abs(q));
    if Abs(p) <= Abs(q) {
      ScaleMonotone(Abs(p), Abs(q), rel);
    } else {
      ScaleMonotone(Abs(q), Abs(p), rel);
    }
  }

  lemma ScaleMonotone(x: real, y: real, k: real)
    requires x <= y && k >= 0.0
    ensures x * k <= y * k && k * x <= k * y
  {
  }

  /** A negative absolute threshold leaves only the relative test. */
  lemma {:induction false} AbsoluteDisabled(c: Checker, p: real, q: real)
    requires c.absoluteThreshold < 0.0
    ensures Converged(c, false, p, q) <==> WithinRelative(c.relativeThreshold, p, q)
  {
  }

  /** A negative relative threshold leaves only the absolute test, except
      that two zero values still pass the relative one. */
  lemma {:induction false} RelativeDisabled(c: Checker, p: real, q: real)
    requires c.relativeThreshold < 0.0
    ensures Converged(c, false, p, q) <==> (p == 0.0 && q == 0.0) || WithinAbsolute(c.absoluteThreshold, p, q)
  {
    var m := Max(Abs(p), Abs(q));
    if p == 0.0 && q == 0.0 {
      assert m == 0.0;
      assert m * c.relativeThreshold == 0.0;
    } else {
      assert m > 0.0;
      NegativeProduct(m, c.relativeThreshold);
    }
  }

  lemma NegativeProduct(x: real, y: real)
    requires x > 0.0 && y < 0.0
    ensures x * y < 0.0
  {
  }

  /** Both thresholds negative: only the cancel or two zero values end the
      optimisation. */
  lemma {:induction false} BothDisabled(c: Checker, p: real, q: real)
    requires c.relativeThreshold < 0.0 && c.absoluteThreshold < 0.0
    ensures Converged(c, false, p, q) <==> p == 0.0 && q == 0.0
  {
    RelativeDisabled(c, p, q);
  }

  /** The test does not depend on which value came first. */
  lemma {:induction false} ConvergedSymmetric(c: Checker, stopTuning: bool, p: real, q: real)
    ensures Converged(c, stopTuning, p, q) == Converged(c, stopTuning, q, p)
  {
    assert Abs(p - q) == Abs(q - p);
    assert Max(Abs(p), Abs(q)) == Max(Abs(q), Abs(p));
  }

  /** Raising either threshold never turns a converged pair into an
      unconverged one. */
  lemma {:induction false} ConvergedMonotone(c: Checker, d: Checker, p: real, q: real)
    requires c.relativeThreshold <= d.relativeThreshold
    requires c.absoluteThreshold <= d.absoluteThreshold
    ensures Converged(c, false, p, q) ==> Converged(d, false, p, q)
  {
    var m := Max(Abs(p), Abs(q));
    ScaleMonotone(c.relativeThreshold, d.relativeThreshold, m);
    assert m * c.relativeThreshold <= m * d.relativeThreshold;
    assert WithinRelative(c.relativeThreshold, p, q) ==> WithinRelative(d.relativeThreshold, p, q);
  }

  /** So whatever the default checker accepts, the first phase's checker
      accepts too. */
  lemma {:induction false} PhaseOneIsCoarser(p: real, q: real)
    ensures Converged(DefaultChecker(), false, p, q) ==> Converged(PhaseOneChecker(), false, p, q)
  {
    ConvergedMonotone(DefaultChecker(), PhaseOneChecker(), p, q);
  }

  /** With the first phase's thresholds, values 1 and 1.00001 have converged
      and 1 and 1.001 have not. */
  lemma {:induction false} PhaseOneExamples()
    ensures Converged(PhaseOneChecker(), false, 1.0, 1.00001)
    ensures !Converged(PhaseOneChecker(), false, 1.0, 1.001)
  {
  }
}
