/** Beam power correction of attenuation projections
    (source/projection_correction/BeamPowerCorrector.hpp,
    ManualBeamPowerCorrector.hpp, ConstantAttenuationBeamPowerCorrector.hpp,
    NullProjectionEdgeBeamPowerCorrector.hpp).

    Every corrector lowers all pixels of a projection by one amount, the
    shift, and returns it.  The .txx files with the method bodies are not
    part of this model; the shifts below are the ones the headers describe
    and the corrector tests pin down. */
module BeamPower {
  import ArrayModel
  import ImageModel
  import LinearFit
  import Tuple

  /** The three correctors with their settings.  ConstantAttenuation keeps
      whether a reference projection was set, and its total attenuation. */
  datatype Corrector =
    | Manual(constantTerm: real, linearTerm: real)
    | ConstantAttenuation(constantTerm: real, referenceSet: bool, referenceAttenuation: real)
    | NullProjectionEdge(edgeWidth: int)

  /** The default constructors: both decay terms 0, no reference, edge
      width 10. */
  const DefaultManual: Corrector := Manual(0.0, 0.0)
  const DefaultConstantAttenuation: Corrector := ConstantAttenuation(0.0, false, 0.0)
  const DefaultNullProjectionEdge: Corrector := NullProjectionEdge(10)

  /** A two-dimensional projection with at least one pixel. */
  predicate Projection(p: ImageModel.Image)
  {
    ImageModel.Valid(p) && |p.arr.dims| == 2 && |p.arr.data| > 0
  }

  function Total(s: seq<real>): real
  {
    LinearFit.Sum(s, |s|)
  }

  // ---------------------------------------------------------------------
  // The uniform shift (BeamPowerCorrector.hpp:43-56)

  /** ShiftProjection: every pixel lowered by the same amount; the image's
      dims, spacing and origin are untouched. */
  function ShiftProjection(p: ImageModel.Image, shift: real): (r: ImageModel.Image)
    requires Projection(p)
    ensures Projection(r)
    ensures r.arr.dims == p.arr.dims && r.spacing == p.spacing && r.origin == p.origin
    ensures |r.arr.data| == |p.arr.data|
    ensures forall i :: 0 <= i < |p.arr.data| ==> r.arr.data[i] == p.arr.data[i] - shift
  {
    p.(arr := p.arr.(data := Tuple.SubScalar(p.arr.data, shift)))
  }

  /** A uniform shift keeps every difference between two pixels. */
  lemma {:induction false} ShiftKeepsDifferences(p: ImageModel.Image, shift: real, i: int, j: int)
    requires Projection(p) && 0 <= i < |p.arr.data| && 0 <= j < |p.arr.data|
    ensures var r := ShiftProjection(p, shift).arr.data;
            r[i] - r[j] == p.arr.data[i] - p.arr.data[j]
  {
  }

  /** Lowering n values by c lowers their total by n c. */
  lemma {:induction false} SumLowered(s: seq<real>, shift: real, n: nat)
    requires n <= |s|
    ensures LinearFit.Sum(Tuple.SubScalar(s, shift), n) == LinearFit.Sum(s, n) - n as real * shift
  {
    if n > 0 {
      SumLowered(s, shift, n - 1);
      var k := (n - 1) as real;
      assert n as real * shift == k * shift + shift;
    }
  }

  // ---------------------------------------------------------------------
  // The edge strips (NullProjectionEdgeBeamPowerCorrector.hpp:27-49)

  /** Flat pixel i lies in a strip of width w along the left or right edge
      of rows of `cols` pixels. */
  predicate InStrip(i: int, cols: int, w: int)
    requires cols > 0
  {
    i % cols < w || i % cols >= cols - w
  }

  /** The sum and the number of strip pixels among the first n. */
  function StripSum(s: seq<real>, cols: int, w: int, n: nat): real
    requires cols > 0 && n <= |s|
  {
    if n == 0 then 0.0
    else StripSum(s, cols, w, n - 1) + (if InStrip(n - 1, cols, w) then s[n - 1] else 0.0)
  }

  function StripCount(cols: int, w: int, n: nat): nat
    requires cols > 0
  {
    if n == 0 then 0 else StripCount(cols, w, n - 1) + (if InStrip(n - 1, cols, w) then 1 else 0)
  }

  lemma {:induction false} StripCountPositive(cols: int, w: int, n: nat)
    requires cols > 0 && w >= 1 && n >= 1
    ensures StripCount(cols, w, n) >= 1
  {
    if n > 1 {
      StripCountPositive(cols, w, n - 1);
    }
  }

  /** Lowering every pixel by c lowers the strip sum by c per strip pixel. */
  lemma {:induction false} StripSumLowered(s: seq<real>, shift: real, cols: int, w: int, n: nat)
    requires cols > 0 && n <= |s|
    ensures StripSum(Tuple.SubScalar(s, shift), cols, w, n)
            == StripSum(s, cols, w, n) - StripCount(cols, w, n) as real * shift
  {
    if n > 0 {
      StripSumLowered(s, shift, cols, w, n - 1);
      var k := StripCount(cols, w, n - 1) as real;
      assert (k + 1.0) * shift == k * shift + shift;
    }
  }

  /** The mean attenuation of the strips of width w at both edges of every
      row. */
  function EdgeMean(p: ImageModel.Image, w: int): real
    requires Projection(p) && 1 <= w && 2 * w <= p.arr.dims[1]
  {
    var s, cols := p.arr.data, p.arr.dims[1];
    StripCountPositive(cols, w, |s|);
    StripSum(s, cols, w, |s|) / StripCount(cols, w, |s|) as real
  }

  // ---------------------------------------------------------------------
  // The correctors

  /** ProcessProjection can run: a ConstantAttenuation corrector needs its
      reference projection, and the edge strips must fit in a row. */
  predicate Ready(c: Corrector, p: ImageModel.Image)
  {
    Projection(p) &&
    (c.ConstantAttenuation? ==> c.referenceSet) &&
    (c.NullProjectionEdge? ==> 1 <= c.edgeWidth && 2 * c.edgeWidth <= p.arr.dims[1])
  }

  /** SetReferenceProjection: ConstantAttenuation records the total
      attenuation of the projection; the base class does nothing. */
  function SetReferenceProjection(c: Corrector, p: ImageModel.Image): (r: Corrector)
    ensures !c.ConstantAttenuation? ==> r == c
    ensures c.ConstantAttenuation? ==>
              (r.ConstantAttenuation? && r.referenceSet &&
               r.constantTerm == c.constantTerm && r.referenceAttenuation == Total(p.arr.data))
  {
    if c.ConstantAttenuation? then c.(referenceSet := true, referenceAttenuation := Total(p.arr.data))
    else c
  }

  /** The shift each corrector applies to projection number `index`:
      Manual, the constant term plus the linear term per projection;
      ConstantAttenuation, what brings the total to the reference total,
      plus the constant term; NullProjectionEdge, the mean of the edge
      strips. */
  function RequiredShift(c: Corrector, index: int, p: ImageModel.Image): real
    requires Ready(c, p)
  {
    match c
    case Manual(k, l) => k + l * index as real
    case ConstantAttenuation(k, _, reference) =>
      (Total(p.arr.data) - reference) / |p.arr.data| as real + k
    case NullProjectionEdge(w) => EdgeMean(p, w)
  }

  /** ProcessProjection(index, proj): lowers every pixel by the required
      shift and returns that shift with the corrected projection. */
  function ProcessProjection(c: Corrector, index: int, p: ImageModel.Image): (r: (real, ImageModel.Image))
    requires Ready(c, p)
    ensures Projection(r.1) && r.1.arr.dims == p.arr.dims && |r.1.arr.data| == |p.arr.data|
    ensures forall i :: 0 <= i < |p.arr.data| ==> r.1.arr.data[i] == p.arr.data[i] - r.0
    ensures c.Manual? ==> r.0 == c.constantTerm + c.linearTerm * index as real
  {
    var shift := RequiredShift(c, index, p);
    (shift, ShiftProjection(p, shift))
  }

  /** ConstantAttenuation brings the total attenuation of every projection
      to the reference total, less the constant term per pixel. */
  lemma {:induction false} ConstantAttenuationMatchesReference(c: Corrector, index: int, p: ImageModel.Image)
    requires Ready(c, p) && c.ConstantAttenuation?
    ensures Total(ProcessProjection(c, index, p).1.arr.data)
            == c.referenceAttenuation - |p.arr.data| as real * c.constantTerm
  {
    var s, n := p.arr.data, |p.arr.data|;
    var shift := RequiredShift(c, index, p);
    SumLowered(s, shift, n);
    TotalAfterShift(Total(s), c.referenceAttenuation, n as real, c.constantTerm);
  }

  /** NullProjectionEdge leaves the edge strips of every projection with
      mean attenuation zero. */
  lemma {:induction false} NullEdgeZeroesEdges(c: Corrector, index: int, p: ImageModel.Image)
    requires Ready(c, p) && c.NullProjectionEdge?
    ensures EdgeMean(ProcessProjection(c, index, p).1, c.edgeWidth) == 0.0
  {
    var s, n := p.arr.data, |p.arr.data|;
    var cols, w := p.arr.dims[1], c.edgeWidth;
    var shift := RequiredShift(c, index, p);
    StripSumLowered(s, shift, cols, w, n);
    StripCountPositive(cols, w, n);
    MeanAfterShift(StripSum(s, cols, w, n), StripCount(cols, w, n) as real);
  }

  lemma {:induction false} TotalAfterShift(t: real, reference: real, n: real, k: real)
    requires n > 0.0
    ensures t - n * ((t - reference) / n + k) == reference - n * k
  {
  }

  lemma {:induction false} MeanAfterShift(sum: real, count: real)
    requires count > 0.0
    ensures (sum - count * (sum / count)) / count == 0.0
  {
  }

  // ---------------------------------------------------------------------
  // Properties

  /** A default Manual corrector leaves every projection unchanged. */
  lemma {:induction false} DefaultManualIsIdentity(index: int, p: ImageModel.Image)
    requires Projection(p)
    ensures ProcessProjection(DefaultManual, index, p).1 == p
  {
    var q := ProcessProjection(DefaultManual, index, p).1;
    assert q.arr.data == p.arr.data;
  }

  /** ConstantAttenuation shifts the reference projection itself by the
      constant term alone. */
  lemma {:induction false} ReferenceShiftedByConstantOnly(c: Corrector, index: int, p: ImageModel.Image)
    requires c.ConstantAttenuation? && Projection(p)
    ensures var c' := SetReferenceProjection(c, p);
            ProcessProjection(c', index, p).0 == c.constantTerm
  {
  }

  /** A rows x cols projection with unit spacing and zero origin. */
  function TestImage(rows: int, cols: int, data: seq<real>): (p: ImageModel.Image)
    requires 0 < rows < 0x1_0000 && 0 < cols < 0x1_0000 && |data| == rows * cols
    ensures Projection(p) && p.arr.dims == [rows, cols] && p.arr.data == data
  {
    var dims := [rows, cols];
    assert Tuple.LongProduct(dims) == rows * cols by {
      assert dims[..|dims| - 1] == [rows];
    }
    ImageModel.WithGeometry(ArrayModel.Arr(true, dims, data), [1.0, 1.0], [0.0, 0.0])
  }

  /** ManualTest of the corrector tests: terms 0.5 and 3 lower projection 9
      by 27.5. */
  lemma {:induction false} ManualExample()
    ensures var p := TestImage(2, 4, [2.0, 4.0, 6.0, 8.0, 10.0, 12.0, 14.0, 16.0]);
            var r := ProcessProjection(Manual(0.5, 3.0), 9, p);
            r.0 == 27.5 && forall i :: 0 <= i < 8 ==> r.1.arr.data[i] == 2.0 * (i + 1) as real - 27.5
  {
  }

  /** ConstantAttenuationTest: the reference projection totals 72 and the
      next one 74, so the next one is lowered by 2 / 8 = 0.25. */
  lemma {:induction false} ConstantAttenuationExample()
    ensures var p0 := TestImage(2, 4, [2.0, 4.0, 6.0, 8.0, 10.0, 12.0, 14.0, 16.0]);
            var p1 := TestImage(2, 4, [2.5, 4.0, 6.5, 8.0, 10.0, 12.0, 14.5, 16.5]);
            var c := SetReferenceProjection(DefaultConstantAttenuation, p0);
            c.referenceAttenuation == 72.0 && ProcessProjection(c, 11, p1).0 == 0.25
  {
    var p0 := TestImage(2, 4, [2.0, 4.0, 6.0, 8.0, 10.0, 12.0, 14.0, 16.0]);
    var p1 := TestImage(2, 4, [2.5, 4.0, 6.5, 8.0, 10.0, 12.0, 14.5, 16.5]);
    assert Total(p0.arr.data) == 72.0;
    assert Total(p1.arr.data) == 74.0;
  }

  /** BasicTest of the null-edge corrector: the strips of width 1 hold 2, 8,
      10 and 16, so the projection is lowered by 36 / 4 = 9. */
  lemma {:induction false} NullEdgeExample()
    ensures var p := TestImage(2, 4, [2.0, 1004.0, 1006.0, 8.0, 10.0, 1012.0, 1014.0, 16.0]);
            ProcessProjection(NullProjectionEdge(1), 9, p).0 == 9.0
  {
    var p := TestImage(2, 4, [2.0, 1004.0, 1006.0, 8.0, 10.0, 1012.0, 1014.0, 16.0]);
    assert StripSum(p.arr.data, 4, 1, 8) == 36.0;
    assert StripCount(4, 1, 8) == 4;
  }

  /** WiderBorderTest: with rows of 6 the strips of width 1 hold 2, 12, 14
      and 24, so the projection is lowered by 52 / 4 = 13, the value the
      test writes as 104 / 8. */
  lemma {:induction false} WiderBorderExample()
    ensures var p := TestImage(2, 6, [2.0, 4.0, 106.0, 108.0, 10.0, 12.0, 14.0, 16.0, 118.0, 120.0, 22.0, 24.0]);
            ProcessProjection(NullProjectionEdge(1), 9, p).0 == 13.0
  {
    var p := TestImage(2, 6, [2.0, 4.0, 106.0, 108.0, 10.0, 12.0, 14.0, 16.0, 118.0, 120.0, 22.0, 24.0]);
    assert StripSum(p.arr.data, 6, 1, 1) == 2.0;
    assert StripSum(p.arr.data, 6, 1, 2) == 2.0;
    assert StripSum(p.arr.data, 6, 1, 3) == 2.0;
    assert StripSum(p.arr.data, 6, 1, 4) == 2.0;
    assert StripSum(p.arr.data, 6, 1, 5) == 2.0;
    assert StripSum(p.arr.data, 6, 1, 6) == 14.0;
    assert StripSum(p.arr.data, 6, 1, 7) == 28.0;
    assert StripSum(p.arr.data, 6, 1, 8) == 28.0;
    assert StripSum(p.arr.data, 6, 1, 9) == 28.0;
    assert StripSum(p.arr.data, 6, 1, 10) == 28.0;
    assert StripSum(p.arr.data, 6, 1, 11) == 28.0;
    assert StripSum(p.arr.data, 6, 1, 12) == 52.0;
    assert StripCount(6, 1, 12) == 4;
  }
}
