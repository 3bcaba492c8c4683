/** Interpolation of a projection at a point of its plane
    (source/back_projection/PixelInterpolator.hpp).

    A point is u = (u0, u1) in the image's physical coordinates.  Pixel
    (i, j) has its centre at origin + (i, j) * spacing and is read as
    element i * dims[1] + j of the row-major buffer. */
module PixelInterpolator {
  import ArrayModel
  import ImageModel

  /** A two-dimensional image whose buffer holds dims[0] * dims[1]
      pixels (an unconstructed one has zero dims and no pixels). */
  predicate Interpolable(img: ImageModel.Image)
  {
    ImageModel.Valid(img) && |img.arr.dims| == 2 &&
    |img.arr.data| == img.arr.dims[0] * img.arr.dims[1]
  }

  lemma {:induction false} FlatIndexInRange(d0: int, d1: int, i: int, j: int)
    requires 0 <= i < d0 && 0 <= j < d1
    ensures 0 <= i * d1 + j < d0 * d1
  {
    assert i * d1 + j < (i + 1) * d1 <= d0 * d1;
  }

  /** image(i, j). */
  function Pixel(img: ImageModel.Image, i: int, j: int): real
    requires Interpolable(img) && 0 <= i < img.arr.dims[0] && 0 <= j < img.arr.dims[1]
  {
    FlatIndexInRange(img.arr.dims[0], img.arr.dims[1], i, j);
    img.arr.data[ArrayModel.FlatIndex2(img.arr.dims, i, j)]
  }

  /** The C++ conversion of a floating-point value to an integer: rounds
      toward zero. */
  function Trunc(x: real): (k: int)
    ensures 0.0 <= x ==> k == x.Floor
    ensures x < 0.0 ==> k == -((-x).Floor)
  {
    if 0.0 <= x then x.Floor else -((-x).Floor)
  }

  /** The point x spacings past the origin along an axis. */
  function Position(s: real, o: real, x: real): real
  {
    o + x * s
  }

  /** The cell of pixel k along an axis: half a spacing either side of its
      centre, closed below. */
  predicate InCell(s: real, o: real, k: int, u: real)
  {
    Position(s, o, k as real - 0.5) <= u < Position(s, o, k as real + 0.5)
  }

  /** With a positive spacing, positions keep the order of their offsets. */
  lemma {:induction false} PositionMonotone(s: real, o: real, a: real, b: real)
    requires s > 0.0 && a <= b
    ensures Position(s, o, a) <= Position(s, o, b)
    ensures a < b ==> Position(s, o, a) < Position(s, o, b)
  {
    assert b * s - a * s == (b - a) * s;
  }

  predicate StrictlyIn(e: ImageModel.Extent, u: real)
  {
    e.lo < u < e.hi
  }

  // ---------------------------------------------------------------------
  // One axis

  lemma {:induction false} PositiveSpacing(d: int, s: real)
    requires d >= 0 && d as real * s > 0.0
    ensures s > 0.0 && d >= 1
  {
  }

  lemma {:induction false} ScaleBounds(x: real, a: real, b: real, s: real)
    requires s > 0.0 && a <= x < b
    ensures a * s <= x * s < b * s
  {
  }

  /** The nearest-neighbour index along an axis, for u strictly inside
      the exterior extent: u lies in the returned pixel's cell. */
  function NearestIndex(d: int, s: real, o: real, u: real): (k: int)
    requires d >= 0 && StrictlyIn(ImageModel.ExteriorExtent(d, s, o), u)
    ensures 0 <= k < d && s > 0.0 && InCell(s, o, k, u)
  {
    NearestIndexInCell(d, s, o, u);
    Trunc((u - o) / s + 0.5)
  }

  lemma {:induction false} NearestIndexInCell(d: int, s: real, o: real, u: real)
    requires d >= 0 && StrictlyIn(ImageModel.ExteriorExtent(d, s, o), u)
    ensures s > 0.0
    ensures var k := Trunc((u - o) / s + 0.5); 0 <= k < d && InCell(s, o, k, u)
  {
    PositiveSpacing(d, s);
    var q := (u - o) / s;
    QuotientTimes(u - o, s);
    assert (d as real - 0.5) * s == (d - 1) as real * s + 0.5 * s;
    QuotientBounds(q, s, u - o, -0.5, d as real - 0.5);
    RoundedBounds(q, d);
    CellOfQuotient(s, o, u, q, Trunc(q + 0.5));
  }

  /** Rounding a position to the nearest index. */
  lemma {:induction false} RoundedBounds(q: real, d: int)
    requires -0.5 < q < d as real - 0.5
    ensures var k := Trunc(q + 0.5); 0 <= k < d && k as real - 0.5 <= q < k as real + 0.5
  {
  }

  lemma {:induction false} CellOfQuotient(s: real, o: real, u: real, q: real, k: int)
    requires s > 0.0 && q * s == u - o && k as real - 0.5 <= q < k as real + 0.5
    ensures InCell(s, o, k, u)
  {
    assert Position(s, o, q) == u;
    PositionMonotone(s, o, k as real - 0.5, q);
    PositionMonotone(s, o, q, k as real + 0.5);
  }

  lemma QuotientTimes(w: real, s: real)
    requires s != 0.0
    ensures (w / s) * s == w
  {
  }

  /** Bounds on a product, divided by the positive factor. */
  lemma {:induction false} QuotientBounds(q: real, s: real, w: real, a: real, b: real)
    requires s > 0.0 && q * s == w && a * s < w < b * s
    ensures a < q < b
  {
    if q <= a {
      MulMono(q, a, s);
    }
    if b <= q {
      MulMono(b, q, s);
    }
  }

  /** The lower bilinear index along an axis and the fraction past it, for
      u strictly inside the interior extent: both neighbours exist and u
      lies between their centres. */
  function LowerIndex(d: int, s: real, o: real, u: real): (r: (int, real))
    requires d >= 1 || s >= 0.0
    requires d >= 0 && StrictlyIn(ImageModel.InteriorExtent(d, s, o), u)
    ensures 0 <= r.0 && r.0 + 1 < d && s > 0.0
    ensures 0.0 <= r.1 < 1.0 && u == o + (r.0 as real + r.1) * s
  {
    PositiveSpacing(d - 1, s);
    var x := (u - o) / s;
    assert x * s == u - o;
    assert 0.0 < x < (d - 1) as real by {
      if x <= 0.0 {
        ScaleBounds(x, x, 0.0, s);
      } else if x >= (d - 1) as real {
        ScaleBounds((d - 1) as real, (d - 1) as real, x, s);
      }
    }
    (x.Floor, x - x.Floor as real)
  }

  // ---------------------------------------------------------------------
  // The three interpolators

  predicate InsideExterior(img: ImageModel.Image, u0: real, u1: real)
    requires Interpolable(img)
  {
    StrictlyIn(img.exterior[0], u0) && StrictlyIn(img.exterior[1], u1)
  }

  predicate InsideInterior(img: ImageModel.Image, u0: real, u1: real)
    requires Interpolable(img)
  {
    StrictlyIn(img.interior[0], u0) && StrictlyIn(img.interior[1], u1)
  }

  /** NearestNeighborPixelInterpolator::Interpolate: 0 on or beyond the
      exterior extents, otherwise the value of a pixel whose cell holds u. */
  function Nearest(img: ImageModel.Image, u0: real, u1: real): (r: real)
    requires Interpolable(img)
    ensures !InsideExterior(img, u0, u1) ==> r == 0.0
    ensures InsideExterior(img, u0, u1) ==>
              exists i, j :: 0 <= i < img.arr.dims[0] && 0 <= j < img.arr.dims[1] &&
                InCell(img.spacing[0], img.origin[0], i, u0) &&
                InCell(img.spacing[1], img.origin[1], j, u1) && r == Pixel(img, i, j)
  {
    if !InsideExterior(img, u0, u1) then 0.0
    else
      var d, s, o := img.arr.dims, img.spacing, img.origin;
      var i := NearestIndex(d[0], s[0], o[0], u0);
      var j := NearestIndex(d[1], s[1], o[1], u1);
      Pixel(img, i, j)
  }

  /** Linear interpolation from a (t = 0) to b (t = 1). */
  function Lerp(a: real, b: real, t: real): real
  {
    (1.0 - t) * a + t * b
  }

  function Min(a: real, b: real): real { if a <= b then a else b }
  function Max(a: real, b: real): real { if a <= b then b else a }

  /** Every axis with a negative spacing has pixels.  The C++ interpolator reads
      pixel -1 of an empty axis with negative spacing, whose interior
      extent is then not empty. */
  predicate NoEmptyReversedAxis(img: ImageModel.Image)
    requires Interpolable(img)
  {
    (img.arr.dims[0] >= 1 || img.spacing[0] >= 0.0) &&
    (img.arr.dims[1] >= 1 || img.spacing[1] >= 0.0)
  }

  /** The four pixels from (i, j) to (i + 1, j + 1) mixed in the
      proportions 1 - t0 to t0 along axis 0 and 1 - t1 to t1 along axis 1. */
  function Mix(img: ImageModel.Image, i: int, j: int, t0: real, t1: real): real
    requires Interpolable(img) && 0 <= i && i + 1 < img.arr.dims[0] && 0 <= j && j + 1 < img.arr.dims[1]
  {
    Lerp(Lerp(Pixel(img, i, j), Pixel(img, i, j + 1), t1),
         Lerp(Pixel(img, i + 1, j), Pixel(img, i + 1, j + 1), t1), t0)
  }

  /** A mix with proportions in [0, 1] lies between the least and the
      greatest of the four pixels. */
  lemma {:induction false} MixBetween(img: ImageModel.Image, i: int, j: int, t0: real, t1: real)
    requires Interpolable(img) && 0 <= i && i + 1 < img.arr.dims[0] && 0 <= j && j + 1 < img.arr.dims[1]
    requires 0.0 <= t0 <= 1.0 && 0.0 <= t1 <= 1.0
    ensures var a, b := Pixel(img, i, j), Pixel(img, i, j + 1);
            var c, e := Pixel(img, i + 1, j), Pixel(img, i + 1, j + 1);
            Min(Min(a, b), Min(c, e)) <= Mix(img, i, j, t0, t1) <= Max(Max(a, b), Max(c, e))
  {
    var a, b := Pixel(img, i, j), Pixel(img, i, j + 1);
    var c, e := Pixel(img, i + 1, j), Pixel(img, i + 1, j + 1);
    LerpBetween(a, b, t1);
    LerpBetween(c, e, t1);
    LerpBetween(Lerp(a, b, t1), Lerp(c, e, t1), t0);
  }

  /** BilinearPixelInterpolator::Interpolate: 0 on or beyond the interior
      extents, otherwise a weighted mean of the four pixels around u
      (BilinearBetween, BilinearAt). */
  function Bilinear(img: ImageModel.Image, u0: real, u1: real): (r: real)
    requires Interpolable(img) && NoEmptyReversedAxis(img)
    ensures !InsideInterior(img, u0, u1) ==> r == 0.0
  {
    if !InsideInterior(img, u0, u1) then 0.0
    else
      var d, s, o := img.arr.dims, img.spacing, img.origin;
      var x := LowerIndex(d[0], s[0], o[0], u0);
      var y := LowerIndex(d[1], s[1], o[1], u1);
      Mix(img, x.0, y.0, x.1, y.1)
  }

  /** Strictly inside the interior extents, the bilinear value lies between
      the least and the greatest of the four pixels around u. */
  lemma {:induction false} BilinearBetween(img: ImageModel.Image, u0: real, u1: real)
    requires Interpolable(img) && NoEmptyReversedAxis(img) && InsideInterior(img, u0, u1)
    ensures var d, s, o := img.arr.dims, img.spacing, img.origin;
            var i, j := LowerIndex(d[0], s[0], o[0], u0).0, LowerIndex(d[1], s[1], o[1], u1).0;
            var a, b := Pixel(img, i, j), Pixel(img, i, j + 1);
            var c, e := Pixel(img, i + 1, j), Pixel(img, i + 1, j + 1);
            Min(Min(a, b), Min(c, e)) <= Bilinear(img, u0, u1) <= Max(Max(a, b), Max(c, e))
  {
    var d, s, o := img.arr.dims, img.spacing, img.origin;
    var x := LowerIndex(d[0], s[0], o[0], u0);
    var y := LowerIndex(d[1], s[1], o[1], u1);
    MixBetween(img, x.0, y.0, x.1, y.1);
  }

  /** A linear interpolation lies between its ends. */
  lemma {:induction false} LerpBetween(a: real, b: real, t: real)
    requires 0.0 <= t <= 1.0
    ensures Min(a, b) <= Lerp(a, b, t) <= Max(a, b)
  {
    assert Lerp(a, b, t) == a + t * (b - a);
    if a <= b {
      MulMono(0.0, t, b - a);
      MulMono(t, 1.0, b - a);
    } else {
      MulMono(0.0, t, a - b);
      MulMono(t, 1.0, a - b);
    }
  }

  lemma {:induction false} MulMono(a: real, b: real, s: real)
    requires a <= b && s >= 0.0
    ensures a * s <= b * s
  {
    assert b * s - a * s == (b - a) * s;
  }

  /** BilinearPixelInterpolatorWithFallback::Interpolate: bilinear strictly
      inside the interior extents, nearest-neighbour elsewhere; so 0 on or
      beyond the exterior extents, and in the half-pixel band between the
      two the value of a pixel whose cell holds u. */
  function BilinearWithFallback(img: ImageModel.Image, u0: real, u1: real): (r: real)
    requires Interpolable(img) && NoEmptyReversedAxis(img)
    ensures InsideInterior(img, u0, u1) ==> r == Bilinear(img, u0, u1)
    ensures !InsideExterior(img, u0, u1) ==> r == 0.0
    ensures !InsideInterior(img, u0, u1) && InsideExterior(img, u0, u1) ==>
              exists i, j :: 0 <= i < img.arr.dims[0] && 0 <= j < img.arr.dims[1] &&
                InCell(img.spacing[0], img.origin[0], i, u0) &&
                InCell(img.spacing[1], img.origin[1], j, u1) && r == Pixel(img, i, j)
  {
    if InsideInterior(img, u0, u1) then
      InteriorInsideExterior(img, u0, u1);
      Bilinear(img, u0, u1)
    else Nearest(img, u0, u1)
  }

  /** The interior extents lie within the exterior ones. */
  lemma {:induction false} InteriorInsideExterior(img: ImageModel.Image, u0: real, u1: real)
    requires Interpolable(img) && NoEmptyReversedAxis(img) && InsideInterior(img, u0, u1)
    ensures InsideExterior(img, u0, u1)
  {
    var d, s, o := img.arr.dims, img.spacing, img.origin;
    var x := LowerIndex(d[0], s[0], o[0], u0);
    var y := LowerIndex(d[1], s[1], o[1], u1);
  }

  // ---------------------------------------------------------------------
  // Properties

  /** Nearest-neighbour reads the pixel whose cell holds u, whichever it
      is (u is not on the lower exterior edge, where 0 is returned). */
  lemma {:induction false} NearestReadsItsCell(img: ImageModel.Image, u0: real, u1: real, i: int, j: int)
    requires Interpolable(img) && 0 <= i < img.arr.dims[0] && 0 <= j < img.arr.dims[1]
    requires img.spacing[0] > 0.0 && img.spacing[1] > 0.0
    requires InCell(img.spacing[0], img.origin[0], i, u0) && InCell(img.spacing[1], img.origin[1], j, u1)
    requires u0 != img.exterior[0].lo && u1 != img.exterior[1].lo
    ensures Nearest(img, u0, u1) == Pixel(img, i, j)
  {
    var d, s, o := img.arr.dims, img.spacing, img.origin;
    CellInsideExterior(d[0], s[0], o[0], i, u0);
    CellInsideExterior(d[1], s[1], o[1], j, u1);
    CellUnique(s[0], o[0], i, NearestIndex(d[0], s[0], o[0], u0), u0);
    CellUnique(s[1], o[1], j, NearestIndex(d[1], s[1], o[1], u1), u1);
  }

  lemma {:induction false} CellInsideExterior(d: int, s: real, o: real, k: int, u: real)
    requires s > 0.0 && 0 <= k < d && InCell(s, o, k, u) && u != o - 0.5 * s
    ensures StrictlyIn(ImageModel.ExteriorExtent(d, s, o), u)
  {
    ExteriorPositions(d, s, o);
    PositionMonotone(s, o, -0.5, k as real - 0.5);
    PositionMonotone(s, o, k as real + 0.5, d as real - 0.5);
  }

  /** The exterior extent of an axis runs from position -1/2 to d - 1/2. */
  lemma {:induction false} ExteriorPositions(d: int, s: real, o: real)
    ensures ImageModel.ExteriorExtent(d, s, o).lo == Position(s, o, -0.5)
    ensures ImageModel.ExteriorExtent(d, s, o).hi == Position(s, o, d as real - 0.5)
  {
    assert (d as real - 0.5) * s == (d - 1) as real * s + 0.5 * s;
  }

  /** The cells of an axis do not overlap. */
  lemma {:induction false} CellUnique(s: real, o: real, k: int, m: int, u: real)
    requires s > 0.0 && InCell(s, o, k, u) && InCell(s, o, m, u)
    ensures k == m
  {
    if k < m {
      CellsApart(s, o, k, m, u);
    } else if m < k {
      CellsApart(s, o, m, k, u);
    }
  }

  /** A lower cell ends where or before a higher one begins. */
  lemma {:induction false} CellsApart(s: real, o: real, k: int, m: int, u: real)
    requires s > 0.0 && k < m && InCell(s, o, k, u)
    ensures !InCell(s, o, m, u)
  {
    PositionMonotone(s, o, k as real + 0.5, m as real - 0.5);
  }

  /** Bilinear interpolation at u = o + (i + t0, j + t1) * spacing,
      strictly inside the interior extents, mixes pixels i, i + 1 (and
      j, j + 1) in the proportions 1 - t0 to t0 (and 1 - t1 to t1). */
  lemma {:induction false} BilinearAt(img: ImageModel.Image, i: int, j: int, t0: real, t1: real, u0: real, u1: real)
    requires Interpolable(img) && img.spacing[0] > 0.0 && img.spacing[1] > 0.0
    requires 0 <= i < img.arr.dims[0] - 1 && 0 <= j < img.arr.dims[1] - 1
    requires 0.0 <= t0 < 1.0 && 0.0 <= t1 < 1.0
    requires 0.0 < i as real + t0 && 0.0 < j as real + t1
    requires u0 == img.origin[0] + (i as real + t0) * img.spacing[0]
    requires u1 == img.origin[1] + (j as real + t1) * img.spacing[1]
    ensures Bilinear(img, u0, u1) == Mix(img, i, j, t0, t1)
  {
    var d, s, o := img.arr.dims, img.spacing, img.origin;
    LowerIndexAt(d[0], s[0], o[0], i, t0, u0);
    LowerIndexAt(d[1], s[1], o[1], j, t1, u1);
    assert InsideInterior(img, u0, u1);
  }

  /** Bilinear interpolation at an inner pixel centre returns that pixel. */
  lemma {:induction false} BilinearAtPixelCentre(img: ImageModel.Image, i: int, j: int, u0: real, u1: real)
    requires Interpolable(img) && img.spacing[0] > 0.0 && img.spacing[1] > 0.0
    requires 0 < i < img.arr.dims[0] - 1 && 0 < j < img.arr.dims[1] - 1
    requires u0 == img.origin[0] + i as real * img.spacing[0]
    requires u1 == img.origin[1] + j as real * img.spacing[1]
    ensures Bilinear(img, u0, u1) == Pixel(img, i, j)
  {
    assert i as real + 0.0 == i as real && j as real + 0.0 == j as real;
    BilinearAt(img, i, j, 0.0, 0.0, u0, u1);
    MixAtCorner(img, i, j);
  }

  lemma {:induction false} MixAtCorner(img: ImageModel.Image, i: int, j: int)
    requires Interpolable(img) && 0 <= i && i + 1 < img.arr.dims[0] && 0 <= j && j + 1 < img.arr.dims[1]
    ensures Mix(img, i, j, 0.0, 0.0) == Pixel(img, i, j)
  {
  }

  /** Bilinear interpolation midway between four pixel centres returns
      their mean. */
  lemma {:induction false} BilinearAtFourPixelCentre(img: ImageModel.Image, i: int, j: int, u0: real, u1: real)
    requires Interpolable(img) && img.spacing[0] > 0.0 && img.spacing[1] > 0.0
    requires 0 <= i < img.arr.dims[0] - 1 && 0 <= j < img.arr.dims[1] - 1
    requires u0 == img.origin[0] + (i as real + 0.5) * img.spacing[0]
    requires u1 == img.origin[1] + (j as real + 0.5) * img.spacing[1]
    ensures Bilinear(img, u0, u1)
            == (Pixel(img, i, j) + Pixel(img, i, j + 1) + Pixel(img, i + 1, j) + Pixel(img, i + 1, j + 1)) / 4.0
  {
    BilinearAt(img, i, j, 0.5, 0.5, u0, u1);
    MixAtMiddle(img, i, j);
  }

  lemma {:induction false} MixAtMiddle(img: ImageModel.Image, i: int, j: int)
    requires Interpolable(img) && 0 <= i && i + 1 < img.arr.dims[0] && 0 <= j && j + 1 < img.arr.dims[1]
    ensures Mix(img, i, j, 0.5, 0.5)
            == (Pixel(img, i, j) + Pixel(img, i, j + 1) + Pixel(img, i + 1, j) + Pixel(img, i + 1, j + 1)) / 4.0
  {
    LerpHalves(Pixel(img, i, j), Pixel(img, i, j + 1), Pixel(img, i + 1, j), Pixel(img, i + 1, j + 1));
  }

  lemma {:induction false} LerpHalves(a: real, b: real, c: real, e: real)
    ensures Lerp(Lerp(a, b, 0.5), Lerp(c, e, 0.5), 0.5) == (a + b + c + e) / 4.0
  {
  }

  lemma {:induction false} CentreInsideInterior(d: int, s: real, o: real, x: real)
    requires s > 0.0 && 0.0 < x < (d - 1) as real
    ensures StrictlyIn(ImageModel.InteriorExtent(d, s, o), o + x * s)
  {
    ScaleBounds(x, 0.0, (d - 1) as real, s);
    ScaleBounds(0.0, 0.0, x, s);
  }

  /** Locating u = o + (k + t) s gives back k and t. */
  lemma {:induction false} LowerIndexAt(d: int, s: real, o: real, k: int, t: real, u: real)
    requires s > 0.0 && 0.0 <= t < 1.0 && 0.0 < k as real + t < (d - 1) as real
    requires u == o + (k as real + t) * s
    ensures StrictlyIn(ImageModel.InteriorExtent(d, s, o), u)
    ensures LowerIndex(d, s, o, u) == (k, t)
  {
    var x := k as real + t;
    CentreInsideInterior(d, s, o, x);
    ExactQuotient(u - o, s, x);
    FloorOfFraction(k, t);
  }

  lemma ExactQuotient(w: real, s: real, x: real)
    requires s != 0.0 && w == x * s
    ensures w / s == x
  {
  }

  lemma FloorOfFraction(k: int, t: real)
    requires 0.0 <= t < 1.0
    ensures (k as real + t).Floor == k
  {
  }

  // ---------------------------------------------------------------------
  // The interpolator tests

  /** A 4 x 4 image with origin (-1.5, 1.75), spacing (0.5, 0.25) and the
      values 5, 6, 7, 8 at (1, 1), (1, 2), (2, 1), (2, 2). */
  function TestImage(): (img: ImageModel.Image)
    ensures Interpolable(img) && NoEmptyReversedAxis(img) && img.arr.dims == [4, 4]
  {
    var data := [0.0, 0.0, 0.0, 0.0, 0.0, 5.0, 6.0, 0.0, 0.0, 7.0, 8.0, 0.0, 0.0, 0.0, 0.0, 0.0];
    var a := ArrayModel.Arr(true, [4, 4], data);
    assert ArrayModel.Valid(a) by {
      assert [4, 4][..1] == [4];
    }
    ImageModel.WithGeometry(a, [0.5, 0.25], [-1.5, 1.75])
  }

  /** From TestNearest and TestBilinear: (0, 0) lies outside; nearest at
      (-1.01, 2.0) and (-0.51, 2.26) reads 5 and 8; bilinear at (-1.0, 2.0)
      reads 5 and at (-0.75, 2.125) gives 6.5. */
  lemma {:induction false} InterpolatorExamples()
    ensures Nearest(TestImage(), 0.0, 0.0) == 0.0 && Bilinear(TestImage(), 0.0, 0.0) == 0.0
    ensures Nearest(TestImage(), -1.01, 2.0) == 5.0
    ensures Nearest(TestImage(), -0.51, 2.26) == 8.0
    ensures Bilinear(TestImage(), -1.0, 2.0) == 5.0
    ensures Bilinear(TestImage(), -0.75, 2.125) == 6.5
  {
    var img := TestImage();
    assert Pixel(img, 1, 1) == 5.0 && Pixel(img, 2, 2) == 8.0;
    assert Pixel(img, 1, 2) == 6.0 && Pixel(img, 2, 1) == 7.0;
    NearestReadsItsCell(img, -1.01, 2.0, 1, 1);
    NearestReadsItsCell(img, -0.51, 2.26, 2, 2);
    BilinearAtPixelCentre(img, 1, 1, -1.0, 2.0);
    BilinearAtFourPixelCentre(img, 1, 1, -0.75, 2.125);
  }

  /** The 2 x 2 image of TestBilinearWithFallback: origin (-1.0, 2.0),
      spacing (0.5, 0.25), values 5, 6, 7, 8. */
  function FallbackTestImage(): (img: ImageModel.Image)
    ensures Interpolable(img) && NoEmptyReversedAxis(img) && img.arr.dims == [2, 2]
  {
    var a := ArrayModel.Arr(true, [2, 2], [5.0, 6.0, 7.0, 8.0]);
    assert ArrayModel.Valid(a) by {
      assert [2, 2][..1] == [2];
    }
    ImageModel.WithGeometry(a, [0.5, 0.25], [-1.0, 2.0])
  }

  /** From TestBilinearWithFallback: the centre of the four pixels gives
      their mean 6.5, and (-1.1, 2.249999), outside the interior extents
      but inside the exterior ones, falls back to pixel (0, 1), 6. */
  lemma {:induction false} FallbackExamples()
    ensures BilinearWithFallback(FallbackTestImage(), -0.75, 2.125) == 6.5
    ensures BilinearWithFallback(FallbackTestImage(), -1.1, 2.249999) == 6.0
    ensures BilinearWithFallback(FallbackTestImage(), 0.0, 0.0) == 0.0
  {
    var img := FallbackTestImage();
    assert Pixel(img, 0, 0) == 5.0 && Pixel(img, 0, 1) == 6.0;
    assert Pixel(img, 1, 0) == 7.0 && Pixel(img, 1, 1) == 8.0;
    BilinearAtFourPixelCentre(img, 0, 0, -0.75, 2.125);
    NearestReadsItsCell(img, -1.1, 2.249999, 0, 1);
  }
}
