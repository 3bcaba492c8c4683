/** The filter kernels: the real-space ramp kernel
    (source/filtering/RampFilterRealSpace.cpp), the Gaussian transfer
    function (source/filtering/GaussianFilter.cpp) and the tapered cosine
    window (source/filtering/TaperedCosineWindowFilter.cpp).

    Each generator fills an array of Length samples, centred at 0 with
    wrap-around: index j and index Length - j hold the same frequency (or
    offset) with opposite signs, and both receive the same value.  The
    output array is either constructed here or must already have Length
    elements.  Values are reals; pi, exp and cos are uninterpreted. */
module Filters {
  import opened Wrappers
  import ArrayModel

  /** pi and the transcendental functions, taken as given. */
  datatype Maths = Maths(pi: real, exp: real -> real, cos: real -> real)

  // ---------------------------------------------------------------------
  // Shared by the three generators

  /** The distance of index j from 0 on the wrap-around axis of length
      n: j below the middle, n - j above it. */
  function Offset(n: int, j: int): (d: int)
    requires 0 <= j < n
    ensures 0 <= d <= n / 2
    ensures j == 0 ==> d == 0
    ensures 0 < j ==> 1 <= d && (d == j || d == n - j)
  {
    if j <= n / 2 then j else n - j
  }

  /** An index and its mirror lie at the same offset. */
  lemma {:induction false} OffsetMirror(n: int, j: int)
    requires 0 < j < n
    ensures Offset(n, j) == Offset(n, n - j)
  {
  }

  /** The checks before the writes: Length > 0 and, for an array that is
      already constructed, size() == Length. */
  predicate Accepts(length: int, f: ArrayModel.Arr)
  {
    length > 0 && (!f.constructed || |f.data| == length)
  }

  /** The elements before the writes: those of the given array, or the
      zeros of a freshly constructed one. */
  function Initial(length: int, f: ArrayModel.Arr): (s: seq<real>)
    requires Accepts(length, f)
    ensures |s| == length
    ensures !f.constructed ==> forall j :: 0 <= j < length ==> s[j] == 0.0
  {
    if f.constructed then f.data else ArrayModel.Zeros(length)
  }

  /** f[n - i] = f[i] = v */
  function Mirror(s: seq<real>, i: int, v: real): (r: seq<real>)
    requires 0 < i < |s|
    ensures |r| == |s| && r[i] == v && r[|s| - i] == v
    ensures forall j :: 0 <= j < |s| && j != i && j != |s| - i ==> r[j] == s[j]
  {
    s[|s| - i := v][i := v]
  }

  /** Exactly an index and its mirror lie at a given offset. */
  lemma {:induction false} OffsetAt(n: int, j: int, i: int)
    requires 0 < j < n && 1 <= i <= n / 2
    ensures Offset(n, j) == i <==> j == i || j == n - i
  {
  }

  /** Every non-zero index of offset below i holds the value v gives that offset. */
  predicate FilledBelow(s: seq<real>, i: int, v: int -> real)
  {
    forall j :: 0 < j < |s| && Offset(|s|, j) < i ==> s[j] == v(Offset(|s|, j))
  }

  /** Every non-zero index of offset at least i holds 0. */
  predicate ZeroFrom(s: seq<real>, i: int)
  {
    forall j :: 0 < j < |s| && Offset(|s|, j) >= i ==> s[j] == 0.0
  }

  /** Writing offset i and its mirror extends the filled region by one. */
  lemma {:induction false} MirrorFills(s: seq<real>, i: int, v: int -> real)
    requires 1 <= i <= |s| / 2 && FilledBelow(s, i, v)
    ensures FilledBelow(Mirror(s, i, v(i)), i + 1, v)
  {
    var r := Mirror(s, i, v(i));
    forall j | 0 < j < |r| && Offset(|r|, j) < i + 1
      ensures r[j] == v(Offset(|r|, j))
    {
      OffsetAt(|s|, j, i);
    }
  }

  /** The same, for a step of two over an offset whose value is 0 and that
      still holds 0. */
  lemma {:induction false} MirrorFillsTwo(s: seq<real>, i: int, v: int -> real)
    requires 1 <= i <= |s| / 2 && FilledBelow(s, i, v) && ZeroFrom(s, i)
    requires v(i + 1) == 0.0
    ensures FilledBelow(Mirror(s, i, v(i)), i + 2, v)
    ensures ZeroFrom(Mirror(s, i, v(i)), i + 2)
  {
    var r := Mirror(s, i, v(i));
    forall j | 0 < j < |r|
      ensures Offset(|r|, j) < i + 2 ==> r[j] == v(Offset(|r|, j))
      ensures Offset(|r|, j) >= i + 2 ==> r[j] == 0.0
    {
      OffsetAt(|s|, j, i);
      if Offset(|s|, j) == i + 1 {
        OffsetAt(|s|, j, i + 1);
      }
    }
  }

  /** The loop of the ramp kernel: offsets 1, 3, 5, ... up to Length/2,
      each with its mirror, over an array that is 0 off the centre. */
  method MirrorOdd(s0: seq<real>, v: int -> real) returns (s: seq<real>)
    requires |s0| > 0 && FilledBelow(s0, 1, v) && ZeroFrom(s0, 1)
    requires forall d :: 0 < d && d % 2 == 0 ==> v(d) == 0.0
    ensures |s| == |s0| && s[0] == s0[0] && FilledBelow(s, |s| / 2 + 1, v)
  {
    var half := |s0| / 2;
    s := s0;
    var i := 1;
    ghost var k := 0;
    while i <= half
      invariant i == k + k + 1 && 1 <= i <= half + 2
      invariant |s| == |s0| && s[0] == s0[0]
      invariant FilledBelow(s, i, v) && ZeroFrom(s, i)
    {
      assert (i + 1) % 2 == 0;
      MirrorFillsTwo(s, i, v);
      s := Mirror(s, i, v(i));
      i, k := i + 2, k + 1;
    }
  }

  /** The loop of the Gaussian: every offset 1 .. Length/2 with its mirror. */
  method MirrorAll(s0: seq<real>, v: int -> real) returns (s: seq<real>)
    requires |s0| > 0
    ensures |s| == |s0| && s[0] == s0[0] && FilledBelow(s, |s| / 2 + 1, v)
  {
    var half := |s0| / 2;
    s := s0;
    var i := 1;
    while i <= half
      invariant 1 <= i <= half + 1
      invariant |s| == |s0| && s[0] == s0[0]
      invariant FilledBelow(s, i, v)
    {
      MirrorFills(s, i, v);
      s := Mirror(s, i, v(i));
      i := i + 1;
    }
  }

  /** Filling every offset up to Length/2 fills the whole array. */
  lemma {:induction false} FilledAll(s: seq<real>, v: int -> real)
    requires |s| > 0 && s[0] == v(0) && FilledBelow(s, |s| / 2 + 1, v)
    ensures forall j :: 0 <= j < |s| ==> s[j] == v(Offset(|s|, j))
  {
  }

  // ---------------------------------------------------------------------
  // Ramp kernel (RampFilterRealSpace.cpp:31-54, RampFilterRealSpace.hpp:29-44)

  datatype Ramp = Ramp(length: int, spacing: real, weight: real)

  /** The constructor's defaults: no length yet, unit spacing and weight. */
  const DefaultRamp: Ramp := Ramp(0, 1.0, 1.0)

  /** d^2 as a real; positive off the centre. */
  function Square(d: int): (r: real)
    ensures d != 0 ==> r > 0.0
  {
    (d * d) as real
  }

  /** -weight / (pi^2 spacing): the factor of the odd offsets.  As
      everywhere here, the quotient is exact; the C++ code divides once by
      the product, which in floating point may round differently. */
  function Coefficient(weight: real, pi: real, spacing: real): real
    requires pi != 0.0 && spacing != 0.0
  {
    -(weight / pi / pi / spacing)
  }

  function RampCoefficient(g: Ramp, m: Maths): real
    requires g.spacing != 0.0 && m.pi != 0.0
  {
    Coefficient(g.weight, m.pi, g.spacing)
  }

  /** The kernel as documented: weight/(4 spacing) at 0, zero at even
      offsets, the coefficient over k^2 at odd offset k. */
  function RampValue(g: Ramp, m: Maths, d: int): real
    requires g.spacing != 0.0 && m.pi != 0.0
  {
    if d == 0 then g.weight / (4.0 * g.spacing)
    else if d % 2 == 1 then RampCoefficient(g, m) / Square(d)
    else 0.0
  }

  /** ConstructRealSpaceFilter: zero the array, set the centre, then the
      odd offsets up to Length/2 and their mirrors. */
  method ConstructRealSpaceFilter(g: Ramp, m: Maths, f: ArrayModel.Arr) returns (r: Result<seq<real>>)
    requires g.spacing != 0.0 && m.pi != 0.0
    ensures r.Ok? <==> Accepts(g.length, f)
    ensures r.Err? ==> r.msg == AssertionMessage
    ensures r.Ok? ==> |r.value| == g.length &&
                      forall j :: 0 <= j < g.length ==> r.value[j] == RampValue(g, m, Offset(g.length, j))
  {
    if !Accepts(g.length, f) {
      return Err(AssertionMessage);
    }
    var n := g.length;
    var v := (d: int) => RampValue(g, m, d);
    var s := ArrayModel.Zeros(n);
    s := s[0 := g.weight / (4.0 * g.spacing)];
    s := MirrorOdd(s, v);
    FilledAll(s, v);
    r := Ok(s);
  }

  /** Symmetry: index j and its mirror hold the same value. */
  lemma {:induction false} RampSymmetric(g: Ramp, m: Maths, s: seq<real>, j: int)
    requires g.spacing != 0.0 && m.pi != 0.0 && |s| == g.length
    requires forall i :: 0 <= i < g.length ==> s[i] == RampValue(g, m, Offset(g.length, i))
    requires 0 < j < g.length
    ensures s[j] == s[g.length - j]
  {
    OffsetMirror(g.length, j);
  }

  /** The kernel scales linearly with the weight. */
  lemma {:induction false} RampScalesWithWeight(g: Ramp, m: Maths, c: real, d: int)
    requires g.spacing != 0.0 && m.pi != 0.0
    ensures RampValue(g.(weight := c * g.weight), m, d) == c * RampValue(g, m, d)
  {
    if d % 2 == 1 && d != 0 {
      OddScalesWithWeight(g, m, c, d);
    } else if d == 0 {
      DivScale(g.weight, 4.0 * g.spacing, c);
    }
  }

  lemma {:induction false} OddScalesWithWeight(g: Ramp, m: Maths, c: real, d: int)
    requires g.spacing != 0.0 && m.pi != 0.0 && d % 2 == 1 && d != 0
    ensures RampValue(g.(weight := c * g.weight), m, d) == c * RampValue(g, m, d)
  {
    CoefficientScalesWithWeight(g, m, c);
    DivScale(RampCoefficient(g, m), Square(d), c);
  }

  lemma {:induction false} CoefficientScalesWithWeight(g: Ramp, m: Maths, c: real)
    requires g.spacing != 0.0 && m.pi != 0.0
    ensures RampCoefficient(g.(weight := c * g.weight), m) == c * RampCoefficient(g, m)
  {
    CoefficientScales(g.weight, m.pi, g.spacing, c);
  }

  lemma {:induction false} CoefficientScales(w: real, p: real, s: real, c: real)
    requires p != 0.0 && s != 0.0
    ensures Coefficient(c * w, p, s) == c * Coefficient(w, p, s)
  {
    DivScale3(w, p, s, c);
    NegScale(w / p / p / s, c);
  }

  /** (c w) / p / p / s == c (w / p / p / s) */
  lemma {:induction false} DivScale3(w: real, p: real, s: real, c: real)
    requires p != 0.0 && s != 0.0
    ensures (c * w) / p / p / s == c * (w / p / p / s)
  {
    var q1 := w / p;
    var q2 := q1 / p;
    DivScale(w, p, c);
    DivScale(q1, p, c);
    DivScale(q2, s, c);
    assert (c * w) / p / p == c * q2;
  }

  lemma {:induction false} NegScale(y: real, c: real)
    ensures -(c * y) == c * -y
  {
  }

  /** The kernel scales inversely with the spacing. */
  lemma {:induction false} RampScalesWithSpacing(g: Ramp, m: Maths, c: real, d: int)
    requires g.spacing != 0.0 && m.pi != 0.0 && c != 0.0
    ensures RampValue(g.(spacing := c * g.spacing), m, d) * c == RampValue(g, m, d)
  {
    if d % 2 == 1 && d != 0 {
      OddScalesWithSpacing(g, m, c, d);
    } else if d == 0 {
      assert 4.0 * (c * g.spacing) == c * (4.0 * g.spacing);
      DivStretch(g.weight, 4.0 * g.spacing, c);
    }
  }

  lemma {:induction false} OddScalesWithSpacing(g: Ramp, m: Maths, c: real, d: int)
    requires g.spacing != 0.0 && m.pi != 0.0 && c != 0.0 && d % 2 == 1 && d != 0
    ensures RampValue(g.(spacing := c * g.spacing), m, d) * c == RampValue(g, m, d)
  {
    var h := g.(spacing := c * g.spacing);
    CoefficientScalesWithSpacing(g, m, c);
    DivScale(RampCoefficient(h, m), Square(d), c);
  }

  lemma {:induction false} CoefficientScalesWithSpacing(g: Ramp, m: Maths, c: real)
    requires g.spacing != 0.0 && m.pi != 0.0 && c != 0.0
    ensures RampCoefficient(g.(spacing := c * g.spacing), m) * c == RampCoefficient(g, m)
  {
    DivStretch(g.weight / m.pi / m.pi, g.spacing, c);
  }

  /** (c a) / x == c (a / x) */
  lemma {:induction false} DivScale(a: real, x: real, c: real)
    requires x != 0.0
    ensures (c * a) / x == c * (a / x)
  {
  }

  /** a / (c x) * c == a / x */
  lemma {:induction false} DivStretch(a: real, x: real, c: real)
    requires x != 0.0 && c != 0.0
    ensures a / (c * x) * c == a / x
  {
  }

  // ---------------------------------------------------------------------
  // Gaussian transfer function (GaussianFilter.cpp:32-58)

  datatype Gaussian = Gaussian(length: int, sigma: real)

  /** The constructor: sigma 0.5 (a fraction of the Nyquist frequency). */
  const DefaultGaussian: Gaussian := Gaussian(0, 0.5)

  /** SetRadius(R): sigma = 1/(R pi), the width of a real-space radius of
      R pixels. */
  function SetRadius(g: Gaussian, m: Maths, radius: real): (r: Gaussian)
    requires radius * m.pi != 0.0
    ensures r.length == g.length && r.sigma * (radius * m.pi) == 1.0
  {
    g.(sigma := 1.0 / (radius * m.pi))
  }

  /** -2 / (Length sigma)^2: the exponent's factor. */
  function GaussianExponent(g: Gaussian): real
    requires g.length != 0 && g.sigma != 0.0
  {
    -2.0 / g.length as real / g.length as real / g.sigma / g.sigma
  }

  /** exp(-2 d^2 / (Length sigma)^2); 1 at offset 0. */
  function GaussianValue(g: Gaussian, m: Maths, d: int): real
    requires g.length != 0 && g.sigma != 0.0
  {
    if d == 0 then 1.0 else m.exp(GaussianExponent(g) * Square(d))
  }

  /** ConstructTransferFunction: every index is written, so the previous
      contents of a constructed array do not matter. */
  method ConstructGaussian(g: Gaussian, m: Maths, f: ArrayModel.Arr) returns (r: Result<seq<real>>)
    requires g.sigma != 0.0
    ensures r.Ok? <==> Accepts(g.length, f)
    ensures r.Err? ==> r.msg == AssertionMessage
    ensures r.Ok? ==> |r.value| == g.length &&
                      forall j :: 0 <= j < g.length ==> r.value[j] == GaussianValue(g, m, Offset(g.length, j))
  {
    if !Accepts(g.length, f) {
      return Err(AssertionMessage);
    }
    var n := g.length;
    var v := (d: int) => GaussianValue(g, m, d);
    var s := Initial(n, f);
    s := s[0 := 1.0];
    s := MirrorAll(s, v);
    FilledAll(s, v);
    r := Ok(s);
  }

  /** Symmetry of the Gaussian samples. */
  lemma {:induction false} GaussianSymmetric(g: Gaussian, m: Maths, s: seq<real>, j: int)
    requires g.sigma != 0.0 && g.length > 0 && |s| == g.length
    requires forall i :: 0 <= i < g.length ==> s[i] == GaussianValue(g, m, Offset(g.length, i))
    requires 0 < j < g.length
    ensures s[j] == s[g.length - j]
  {
    OffsetMirror(g.length, j);
  }

  // ---------------------------------------------------------------------
  // Tapered cosine window (TaperedCosineWindowFilter.cpp:32-72)

  datatype Tapered = Tapered(length: int, f1: real, f2: real)

  /** The constructor: F1 = 0.25, F2 = 0.5 of the Nyquist frequency. */
  const DefaultTapered: Tapered := Tapered(0, 0.25, 0.5)

  /** The frequency of offset i as a fraction of the Nyquist frequency Length/2. */
  function Freq(i: int, half: int): real
    requires half > 0
  {
    i as real / half as real
  }

  lemma {:induction false} FreqMonotone(i: int, k: int, half: int)
    requires half > 0 && i < k
    ensures Freq(i, half) < Freq(k, half)
  {
    var h := half as real;
    assert Freq(k, half) - Freq(i, half) == (k - i) as real / h;
  }

  /** The cosine taper between F1 and F2. */
  function Taper(t: Tapered, m: Maths, fr: real): real
    requires t.f2 != t.f1
  {
    0.5 + 0.5 * m.cos(m.pi / (t.f2 - t.f1) * (fr - t.f1))
  }

  /** The window at offset d of the Nyquist index half: 1 up to F1, the
      cosine taper strictly between F1 and F2, and 0 from F2 on; the
      Nyquist index itself is always 0. */
  function TaperedValue(t: Tapered, m: Maths, half: int, d: int): real
  {
    if d == 0 then 1.0
    else if 0 < d < half && Freq(d, half) <= t.f1 then 1.0
    else if 0 < d < half && Freq(d, half) < t.f2 then Taper(t, m, Freq(d, half))
    else 0.0
  }

  /** ConstructTransferFunction: three loops over the offsets, the first
      two stopping before the Nyquist index.  The C++ loop computes i/half
      before testing i < half, which for Length 1 divides by zero; the
      test order here is swapped, which changes no outcome. */
  method ConstructTapered(t: Tapered, m: Maths, f: ArrayModel.Arr) returns (r: Result<seq<real>>)
    ensures r.Ok? <==> Accepts(t.length, f)
    ensures r.Err? ==> r.msg == AssertionMessage
    ensures r.Ok? ==> |r.value| == t.length &&
                      forall j :: 0 <= j < t.length ==>
                        r.value[j] == TaperedValue(t, m, t.length / 2, Offset(t.length, j))
  {
    if !Accepts(t.length, f) {
      return Err(AssertionMessage);
    }
    var n := t.length;
    var half := n / 2;
    var v := (d: int) => TaperedValue(t, m, half, d);
    var s := Initial(n, f);
    s := s[0 := 1.0];
    var i;
    s, i := PassBand(t, m, v, s, 1);
    s, i := TaperBand(t, m, v, s, i);
    s := StopBand(t, m, v, s, i);
    r := Ok(s);
  }

  /** The first loop: 1 while the frequency is at most F1. */
  method PassBand(t: Tapered, m: Maths, v: int -> real, s0: seq<real>, i0: int) returns (s: seq<real>, i: int)
    requires forall d :: v(d) == TaperedValue(t, m, |s0| / 2, d)
    requires i0 == 1 && |s0| > 0 && FilledBelow(s0, i0, v)
    ensures |s| == |s0| && s[0] == s0[0] && FilledBelow(s, i, v)
    ensures 1 <= i <= |s| / 2 || (i == 1 && |s| / 2 == 0)
    ensures i < |s| / 2 ==> t.f1 < Freq(i, |s| / 2)
  {
    var half := |s0| / 2;
    s, i := s0, i0;
    while i < half && Freq(i, half) <= t.f1
      invariant 1 <= i <= half || (i == 1 && half == 0)
      invariant |s| == |s0| && s[0] == s0[0]
      invariant FilledBelow(s, i, v)
    {
      assert 1.0 == v(i);
      MirrorFills(s, i, v);
      s := Mirror(s, i, 1.0);
      i := i + 1;
    }
  }

  /** The second loop: the cosine taper while the frequency is below F2. */
  method TaperBand(t: Tapered, m: Maths, v: int -> real, s0: seq<real>, i0: int) returns (s: seq<real>, i: int)
    requires forall d :: v(d) == TaperedValue(t, m, |s0| / 2, d)
    requires |s0| > 0
    requires 1 <= i0 <= |s0| / 2 || (i0 == 1 && |s0| / 2 == 0)
    requires i0 < |s0| / 2 ==> t.f1 < Freq(i0, |s0| / 2)
    requires FilledBelow(s0, i0, v)
    ensures |s| == |s0| && s[0] == s0[0] && FilledBelow(s, i, v)
    ensures 1 <= i <= |s| / 2 || (i == 1 && |s| / 2 == 0)
    ensures i < |s| / 2 ==> t.f1 < Freq(i, |s| / 2) && t.f2 <= Freq(i, |s| / 2)
  {
    var half := |s0| / 2;
    s, i := s0, i0;
    while i < half && Freq(i, half) < t.f2
      invariant 1 <= i <= half || (i == 1 && half == 0)
      invariant |s| == |s0| && s[0] == s0[0]
      invariant i < half ==> t.f1 < Freq(i, half)
      invariant FilledBelow(s, i, v)
    {
      var x := Taper(t, m, Freq(i, half));
      assert x == v(i);
      MirrorFills(s, i, v);
      s := Mirror(s, i, x);
      if i + 1 < half { FreqMonotone(i, i + 1, half); }
      i := i + 1;
    }
  }

  /** The third loop: 0 up to and including the Nyquist index. */
  method StopBand(t: Tapered, m: Maths, v: int -> real, s0: seq<real>, i0: int) returns (s: seq<real>)
    requires forall d :: v(d) == TaperedValue(t, m, |s0| / 2, d)
    requires |s0| > 0
    requires 1 <= i0 <= |s0| / 2 || (i0 == 1 && |s0| / 2 == 0)
    requires i0 < |s0| / 2 ==> t.f1 < Freq(i0, |s0| / 2) && t.f2 <= Freq(i0, |s0| / 2)
    requires FilledBelow(s0, i0, v)
    ensures |s| == |s0| && s[0] == s0[0] && FilledBelow(s, |s| / 2 + 1, v)
  {
    var half := |s0| / 2;
    s := s0;
    var i := i0;
    while i <= half
      invariant 1 <= i <= half + 1 || (i == 1 && half == 0)
      invariant |s| == |s0| && s[0] == s0[0]
      invariant i < half ==> t.f1 < Freq(i, half) && t.f2 <= Freq(i, half)
      invariant FilledBelow(s, i, v)
    {
      assert 0.0 == v(i);
      MirrorFills(s, i, v);
      s := Mirror(s, i, 0.0);
      if i + 1 < half { FreqMonotone(i, i + 1, half); }
      i := i + 1;
    }
  }

  /** The window never leaves [0, 1] when the cosine does not leave [-1, 1]. */
  lemma {:induction false} TaperedBounded(t: Tapered, m: Maths, half: int, d: int)
    requires forall x: real :: -1.0 <= m.cos(x) <= 1.0
    ensures 0.0 <= TaperedValue(t, m, half, d) <= 1.0
  {
  }

  /** The Nyquist sample of an even length is 0, whatever F1 and F2 are. */
  lemma {:induction false} TaperedNyquistZero(t: Tapered, m: Maths, n: int)
    requires n > 0 && n % 2 == 0
    ensures TaperedValue(t, m, n / 2, Offset(n, n / 2)) == 0.0
  {
  }
}
