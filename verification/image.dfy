/** Images: arrays with pixel spacing and origin (bonelab/Image.hpp).

    The origin is the centre of pixel 0 on each axis.  The interior extents
    run from the first to the last pixel centre; the exterior extents add
    half a pixel on each side, so they cover every pixel cell. */
module ImageModel {
  import opened Wrappers
  import ArrayModel
  import Tuple

  datatype Extent = Extent(lo: real, hi: real)

  datatype Image = Image(
    arr: ArrayModel.Arr,
    spacing: seq<real>,
    origin: seq<real>,
    interior: seq<Extent>,
    exterior: seq<Extent>)

  /** Interior extent of one axis: from pixel 0's centre to pixel
      (d - 1)'s centre. */
  function InteriorExtent(d: int, spacing: real, origin: real): (e: Extent)
    ensures e.hi - e.lo == (d - 1) as real * spacing
  {
    Extent(origin, origin + (d - 1) as real * spacing)
  }

  /** Exterior extent of one axis: the interior one widened by half a
      pixel on each side. */
  function ExteriorExtent(d: int, spacing: real, origin: real): (e: Extent)
    ensures e.hi - e.lo == d as real * spacing
  {
    var i := InteriorExtent(d, spacing, origin);
    Extent(i.lo - 0.5 * spacing, i.hi + 0.5 * spacing)
  }

  /** calculate_extents: both extents for every axis. */
  function CalculateExtents(dims: seq<int>, spacing: seq<real>, origin: seq<real>)
    : (r: (seq<Extent>, seq<Extent>))
    requires |spacing| == |origin| == |dims|
    ensures |r.0| == |r.1| == |dims|
    ensures forall i :: 0 <= i < |dims| ==>
              r.0[i].lo == origin[i] && r.1[i].lo == origin[i] - 0.5 * spacing[i]
  {
    (seq(|dims|, i requires 0 <= i < |dims| => InteriorExtent(dims[i], spacing[i], origin[i])),
     seq(|dims|, i requires 0 <= i < |dims| => ExteriorExtent(dims[i], spacing[i], origin[i])))
  }

  /** The image invariant: the array is valid, spacing and origin have one
      component per axis, and the stored extents are the calculated ones. */
  predicate Valid(img: Image)
  {
    ArrayModel.Valid(img.arr) &&
    |img.spacing| == |img.origin| == |img.arr.dims| &&
    (img.interior, img.exterior) == CalculateExtents(img.arr.dims, img.spacing, img.origin)
  }

  function WithGeometry(a: ArrayModel.Arr, spacing: seq<real>, origin: seq<real>): (img: Image)
    requires ArrayModel.Valid(a) && |spacing| == |origin| == |a.dims|
    ensures Valid(img) && img.arr == a && img.spacing == spacing && img.origin == origin
  {
    var e := CalculateExtents(a.dims, spacing, origin);
    Image(a, spacing, origin, e.0, e.1)
  }

  function ZeroReals(n: nat): (s: seq<real>)
    ensures |s| == n && forall i :: 0 <= i < n ==> s[i] == 0.0
  {
    seq(n, _ => 0.0)
  }

  /** The default constructor: unconstructed, zero spacing and origin. */
  function Empty(n: nat): (img: Image)
    requires n >= 1
    ensures Valid(img) && !img.arr.constructed
  {
    WithGeometry(ArrayModel.Empty(n), ZeroReals(n), ZeroReals(n))
  }

  // ---------------------------------------------------------------------
  // Lifecycle (Image.hpp:165-246, 271-284)

  /** construct(dims, spacing, origin): the array is allocated (or the
      array error is raised), then spacing, origin and extents are set. */
  function Construct(img: Image, dims: seq<int>, spacing: seq<real>, origin: seq<real>)
    : (r: Result<Image>)
    requires ArrayModel.ValidDims(dims) && |spacing| == |origin| == |dims|
    ensures r.Ok? <==> !img.arr.constructed
    ensures r.Err? ==> r.msg == "Array is already constructed."
    ensures r.Ok? ==> Valid(r.value) && r.value.arr.constructed && r.value.arr.dims == dims
    ensures r.Ok? ==> r.value.spacing == spacing && r.value.origin == origin
  {
    var a :- ArrayModel.Construct(img.arr, dims);
    Ok(WithGeometry(a, spacing, origin))
  }

  /** construct_reference(data, dims, spacing, origin). */
  function ConstructReference(img: Image, src: seq<real>, dims: seq<int>,
                              spacing: seq<real>, origin: seq<real>): (r: Result<Image>)
    requires ArrayModel.ValidDims(dims) && |spacing| == |origin| == |dims|
    requires |src| >= Tuple.LongProduct(dims)
    ensures r.Ok? <==> !img.arr.constructed
    ensures r.Ok? ==> Valid(r.value) && r.value.arr.dims == dims
    ensures r.Ok? ==> r.value.spacing == spacing && r.value.origin == origin
  {
    var a :- ArrayModel.ConstructReference(img.arr, src, dims);
    Ok(WithGeometry(a, spacing, origin))
  }

  /** destruct(): the array is destructed and spacing and origin zeroed;
      the extents are then recalculated. */
  function Destruct(img: Image): (r: Image)
    requires Valid(img)
    ensures Valid(r) && !r.arr.constructed
    ensures forall i :: 0 <= i < |r.interior| ==>
              r.interior[i] == Extent(0.0, 0.0) && r.exterior[i] == Extent(0.0, 0.0)
  {
    var n := |img.arr.dims|;
    WithGeometry(ArrayModel.Destruct(img.arr), ZeroReals(n), ZeroReals(n))
  }

  /** copy(rhs): an unconstructed target is constructed like rhs; a
      constructed one must have the dims of rhs and adopts its spacing and
      origin.  The data are then copied as by the array's copy, which
      refuses an unconstructed rhs after the geometry has been taken. */
  function Copy(img: Image, rhs: Image): (r: Attempt<Image>)
    requires Valid(img) && Valid(rhs)
    ensures Valid(r.after)
    ensures r.error.None? <==> rhs.arr.constructed && (!img.arr.constructed || img.arr.dims == rhs.arr.dims)
    ensures r.error.Some? ==> r.error.value == (if img.arr.constructed && img.arr.dims != rhs.arr.dims
                                               then "cannot copy different sized Images"
                                               else "Array is not constructed.")
    ensures r.error.None? ==> r.after.arr.constructed &&
                              r.after.arr.dims == rhs.arr.dims && r.after.arr.data == rhs.arr.data
    ensures !img.arr.constructed || img.arr.dims == rhs.arr.dims ==>
              r.after.arr.constructed && r.after.arr.dims == rhs.arr.dims &&
              r.after.spacing == rhs.spacing && r.after.origin == rhs.origin
    ensures r.error.Some? && img.arr.constructed ==> r.after.arr == img.arr
    ensures img.arr.constructed && img.arr.dims != rhs.arr.dims ==> r.after == img
  {
    if !img.arr.constructed then
      var c := Construct(img, rhs.arr.dims, rhs.spacing, rhs.origin).value;
      var a := ArrayModel.Copy(c.arr, rhs.arr);
      Attempt(WithGeometry(a.after, rhs.spacing, rhs.origin), a.error)
    else if img.arr.dims != rhs.arr.dims then Attempt(img, Some("cannot copy different sized Images"))
    else
      var g := WithGeometry(img.arr, rhs.spacing, rhs.origin);
      var a := ArrayModel.Copy(g.arr, rhs.arr);
      Attempt(WithGeometry(a.after, rhs.spacing, rhs.origin), a.error)
  }

  // ---------------------------------------------------------------------
  // Properties

  /** Copying from a constructed image yields an image equal to it, extents
      included. */
  lemma {:induction false} CopyReproducesSource(img: Image, rhs: Image)
    requires Valid(img) && Valid(rhs) && rhs.arr.constructed
    requires !img.arr.constructed || img.arr.dims == rhs.arr.dims
    ensures Copy(img, rhs) == Attempt(rhs, None)
  {
  }

  /** A copy from an unconstructed image into an image of its dims is
      refused, yet the target has taken the source's spacing and origin
      and kept its data. */
  lemma {:induction false} RefusedCopyTakesGeometry(img: Image, rhs: Image)
    requires Valid(img) && Valid(rhs) && img.arr.constructed && !rhs.arr.constructed
    requires img.arr.dims == rhs.arr.dims
    ensures Copy(img, rhs).error == Some("Array is not constructed.")
    ensures Copy(img, rhs).after == WithGeometry(img.arr, rhs.spacing, rhs.origin)
  {
  }

  /** Every pixel centre along an axis lies within the interior extent
      (for a non-negative spacing), and the cell of every pixel lies within
      the exterior extent. */
  lemma {:induction false} PixelCentresInside(d: int, s: real, o: real, k: int)
    requires s >= 0.0 && 0 <= k < d
    ensures var ie := InteriorExtent(d, s, o);
            ie.lo <= o + k as real * s <= ie.hi
    ensures var ee := ExteriorExtent(d, s, o);
            ee.lo <= o + k as real * s - 0.5 * s && o + k as real * s + 0.5 * s <= ee.hi
  {
    MulMonotone(k as real, (d - 1) as real, s);
    MulMonotone(0.0, k as real, s);
  }

  lemma {:induction false} MulMonotone(x: real, y: real, s: real)
    requires x <= y && s >= 0.0
    ensures x * s <= y * s
  {
  }

  /** The extents of the image tests: dims (3, 4), spacing (0.5, 2),
      origin (-10, 5). */
  lemma {:induction false} ExtentsExample()
    ensures var e := CalculateExtents([3, 4], [0.5, 2.0], [-10.0, 5.0]);
            e.0 == [Extent(-10.0, -9.0), Extent(5.0, 11.0)] &&
            e.1 == [Extent(-10.25, -8.75), Extent(4.0, 12.0)]
  {
  }
}
