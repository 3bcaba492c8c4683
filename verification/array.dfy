/** N-dimensional row-major arrays (bonelab/Array.hpp).

    An `ArrayBase<N,TValue,TIndex>` is modelled as an immutable value: a
    constructed flag, the dims tuple and the flattened element sequence.
    Elements are `real` (the arrays hold floating-point projection and
    volume data).  Every mutating member becomes a function returning the
    new value, or an error for the cases where Array.hpp throws. */
module ArrayModel {
  import opened Wrappers
  import Tuple

  datatype Arr = Arr(constructed: bool, dims: seq<int>, data: seq<real>)

  /** Dims tuples: N >= 1 components, each a (non-negative) index. */
  predicate ValidDims(d: seq<int>)
  {
    |d| >= 1 && forall i :: 0 <= i < |d| ==> d[i] >= 0
  }

  function ZeroDims(n: nat): (d: seq<int>)
    ensures |d| == n
  {
    seq(n, _ => 0)
  }

  function Zeros(n: nat): (s: seq<real>)
    ensures |s| == n
  {
    seq(n, _ => 0.0)
  }

  /** The class invariant: the buffer holds long_product(dims) elements of
      a constructed array; an unconstructed array has zero dims and no data. */
  predicate Valid(a: Arr)
  {
    ValidDims(a.dims) &&
    if a.constructed then |a.data| == Tuple.LongProduct(a.dims)
    else a.dims == ZeroDims(|a.dims|) && a.data == []
  }

  /** The default constructor: not constructed, zero dims. */
  function Empty(n: nat): (a: Arr)
    requires n >= 1
    ensures Valid(a) && !a.constructed && |a.dims| == n
  {
    Arr(false, ZeroDims(n), [])
  }

  // ---------------------------------------------------------------------
  // Lifecycle (Array.hpp:129-187, 284-317)

  /** construct(dims): refuses an already-constructed array; otherwise
      allocates long_product(dims) zeroed elements. */
  function Construct(a: Arr, dims: seq<int>): (r: Result<Arr>)
    requires ValidDims(dims)
    ensures r.Ok? <==> !a.constructed
    ensures r.Err? ==> r.msg == "Array is already constructed."
    ensures r.Ok? ==> Valid(r.value) && r.value.constructed && r.value.dims == dims
    ensures r.Ok? ==> |r.value.data| == Tuple.LongProduct(dims)
    ensures r.Ok? ==> forall i :: 0 <= i < |r.value.data| ==> r.value.data[i] == 0.0
  {
    if a.constructed then Err("Array is already constructed.")
    else Ok(Arr(true, dims, Zeros(Tuple.LongProduct(dims))))
  }

  /** construct_reference(data, dims): refuses an already-constructed
      array; otherwise views the first long_product(dims) elements of an
      existing buffer. */
  function ConstructReference(a: Arr, src: seq<real>, dims: seq<int>): (r: Result<Arr>)
    requires ValidDims(dims) && |src| >= Tuple.LongProduct(dims)
    ensures r.Ok? <==> !a.constructed
    ensures r.Err? ==> r.msg == "Array is already constructed."
    ensures r.Ok? ==> Valid(r.value) && r.value.constructed && r.value.dims == dims
    ensures r.Ok? ==> forall i :: 0 <= i < |r.value.data| ==> r.value.data[i] == src[i]
  {
    if a.constructed then Err("Array is already constructed.")
    else Ok(Arr(true, dims, src[..Tuple.LongProduct(dims)]))
  }

  /** destruct(): back to the unconstructed state with all-zero dims. */
  function Destruct(a: Arr): (r: Arr)
    requires ValidDims(a.dims)
    ensures Valid(r) && !r.constructed && |r.data| == 0
    ensures |r.dims| == |a.dims| && forall i :: 0 <= i < |r.dims| ==> r.dims[i] == 0
  {
    Arr(false, ZeroDims(|a.dims|), [])
  }

  /** zero(): refuses an unconstructed array; otherwise every element is 0. */
  function Zero(a: Arr): (r: Result<Arr>)
    ensures r.Ok? <==> a.constructed
    ensures r.Err? ==> r.msg == "Array is not constructed."
    ensures r.Ok? ==> r.value.dims == a.dims && |r.value.data| == |a.data|
    ensures r.Ok? ==> forall i :: 0 <= i < |r.value.data| ==> r.value.data[i] == 0.0
  {
    if !a.constructed then Err("Array is not constructed.")
    else Ok(Arr(true, a.dims, Zeros(|a.data|)))
  }

  /** copy(rhs): an unconstructed target is first constructed with the dims
      of rhs; a constructed target must already have exactly those dims.
      Then all size() elements are read through rhs.ptr(), which refuses an
      unconstructed rhs, after the target has been constructed. */
  function Copy(a: Arr, rhs: Arr): (r: Attempt<Arr>)
    requires Valid(a) && Valid(rhs)
    ensures Valid(r.after)
    ensures r.error.None? <==> rhs.constructed && (!a.constructed || a.dims == rhs.dims)
    ensures r.error.Some? ==> r.error.value == (if a.constructed && a.dims != rhs.dims
                                               then "cannot copy different sized Arrays."
                                               else "Array is not constructed.")
    ensures r.error.None? ==> r.after.constructed && r.after.dims == rhs.dims && r.after.data == rhs.data
    ensures r.error.Some? && a.constructed ==> r.after == a
    ensures r.error.Some? && !a.constructed ==>
              r.after.constructed && r.after.dims == rhs.dims &&
              forall i :: 0 <= i < |r.after.data| ==> r.after.data[i] == 0.0
  {
    ValidSize(rhs);
    if a.constructed && a.dims != rhs.dims then Attempt(a, Some("cannot copy different sized Arrays."))
    else
      var target := if a.constructed then a else Construct(a, rhs.dims).value;
      if !rhs.constructed then Attempt(target, Some("Array is not constructed."))
      else Attempt(Arr(true, rhs.dims, rhs.data), None)
  }

  /** copy(pointer): the array must be constructed; size() elements are
      read from the buffer. */
  function CopyFromBuffer(a: Arr, src: seq<real>): (r: Result<Arr>)
    requires Valid(a)
    requires a.constructed ==> |src| >= |a.data|
    ensures r.Ok? <==> a.constructed
    ensures r.Err? ==> r.msg == "Array is not constructed."
    ensures r.Ok? ==> Valid(r.value) && r.value.dims == a.dims
    ensures r.Ok? ==> |r.value.data| == |a.data| &&
                      forall i :: 0 <= i < |a.data| ==> r.value.data[i] == src[i]
  {
    if !a.constructed then Err("Array is not constructed.")
    else Ok(Arr(true, a.dims, src[..|a.data|]))
  }

  /** An unconstructed array's long_product is 0, so in both states the
      buffer length is long_product(dims). */
  lemma {:induction false} ValidSize(a: Arr)
    requires Valid(a)
    ensures |a.data| == Tuple.LongProduct(a.dims)
  {
    if !a.constructed {
      LongProductOfZeroDims(a.dims);
    }
  }

  lemma {:induction false} LongProductOfZeroDims(d: seq<int>)
    requires |d| >= 1 && d == ZeroDims(|d|)
    ensures Tuple.LongProduct(d) == 0
    decreases |d|
  {
    if |d| > 1 {
      LongProductOfZeroDims(d[..|d| - 1]);
    }
  }

  // ---------------------------------------------------------------------
  // Element access (Array.hpp:260-282, compiled with RANGE_CHECKING)

  const IndexMessage: string := "Array index out of bounds."

  /** operator[](i) with range checking. */
  function At(a: Arr, i: nat): (r: Result<real>)
    ensures r.Ok? <==> a.constructed && i < |a.data|
    ensures r.Err? && !a.constructed ==> r.msg == "Array is not constructed."
    ensures r.Err? && a.constructed ==> r.msg == IndexMessage
    ensures r.Ok? ==> r.value == a.data[i]
  {
    if !a.constructed then Err("Array is not constructed.")
    else if i >= |a.data| then Err(IndexMessage)
    else Ok(a.data[i])
  }

  /** Assignment through operator[](i). */
  function Store(a: Arr, i: nat, v: real): (r: Arr)
    requires a.constructed && i < |a.data|
    ensures r.constructed && r.dims == a.dims && |r.data| == |a.data|
    ensures r.data[i] == v
    ensures forall k :: 0 <= k < |a.data| && k != i ==> r.data[k] == a.data[k]
  {
    a.(data := a.data[i := v])
  }

  // ---------------------------------------------------------------------
  // Row-major indexing (Array.hpp:249-257, 470-480, 522-534)

  predicate InBounds(dims: seq<int>, idx: seq<int>)
  {
    |idx| == |dims| && forall i :: 0 <= i < |idx| ==> 0 <= idx[i] < dims[i]
  }

  /** The generic flat_index fold: start from indices[0], then for each
      later axis multiply by that axis' extent and add its index.  dims[0]
      never enters. */
  function FlatIndex(dims: seq<int>, idx: seq<int>): int
    requires |idx| == |dims| >= 1
    decreases |idx|
  {
    if |idx| == 1 then idx[0]
    else FlatIndex(dims[..|dims| - 1], idx[..|idx| - 1]) * dims[|dims| - 1] + idx[|idx| - 1]
  }

  /** The 2-D specialisation. */
  function FlatIndex2(dims: seq<int>, i: int, j: int): int
    requires |dims| == 2
  {
    i * dims[1] + j
  }

  /** The 3-D specialisation. */
  function FlatIndex3(dims: seq<int>, i: int, j: int, k: int): int
    requires |dims| == 3
  {
    (i * dims[1] + j) * dims[2] + k
  }

  /** The specialisations agree with the generic fold. */
  lemma {:induction false} FlatIndexSpecialisations(dims: seq<int>, idx: seq<int>)
    requires |idx| == |dims|
    ensures |dims| == 2 ==> FlatIndex(dims, idx) == FlatIndex2(dims, idx[0], idx[1])
    ensures |dims| == 3 ==> FlatIndex(dims, idx) == FlatIndex3(dims, idx[0], idx[1], idx[2])
  {
    if |dims| == 2 {
      assert FlatIndex(dims[..1], idx[..1]) == idx[0];
    }
    if |dims| == 3 {
      assert FlatIndex(dims[..1], idx[..1]) == idx[0];
      assert dims[..2][..1] == dims[..1] && idx[..2][..1] == idx[..1];
      assert FlatIndex(dims[..2], idx[..2]) == idx[0] * dims[1] + idx[1];
    }
  }

  /** The inverse of FlatIndex: peel the last axis off with / and %. */
  function Unflatten(dims: seq<int>, f: int): (idx: seq<int>)
    requires ValidDims(dims)
    ensures |idx| == |dims|
    decreases |dims|
  {
    if |dims| == 1 then [f]
    else
      var d := dims[|dims| - 1];
      if d == 0 then Unflatten(dims[..|dims| - 1], 0) + [0]
      else Unflatten(dims[..|dims| - 1], f / d) + [f % d]
  }

  lemma {:induction false} RowStep(q: int, p: int, d: int, j: int)
    requires 0 <= q < p && 0 <= j < d
    ensures 0 <= q * d + j < p * d
  {
    assert q * d <= (p - 1) * d;
  }

  lemma {:induction false} DivModStep(q: int, d: int, j: int)
    requires d > 0 && 0 <= j < d
    ensures (q * d + j) / d == q && (q * d + j) % d == j
  {
    var x := q * d + j;
    var k := x / d - q;
    assert d * k == j - x % d;
    MulAwayFromZero(d, k);
  }

  lemma {:induction false} MulAwayFromZero(d: int, k: int)
    requires d > 0
    ensures k >= 1 ==> d * k >= d
    ensures k <= -1 ==> d * k <= -d
  {
  }

  lemma {:induction false} DivBound(f: int, p: int, d: int)
    requires d > 0 && 0 <= f < p * d
    ensures 0 <= f / d < p && f == (f / d) * d + f % d
  {
  }

  /** In-bounds indices land in [0, product(dims)). */
  lemma {:induction false} FlatIndexInRange(dims: seq<int>, idx: seq<int>)
    requires ValidDims(dims) && InBounds(dims, idx)
    ensures 0 <= FlatIndex(dims, idx) < Tuple.Product(dims)
    decreases |dims|
  {
    if |dims| > 1 {
      var di, ii := dims[..|dims| - 1], idx[..|idx| - 1];
      FlatIndexInRange(di, ii);
      RowStep(FlatIndex(di, ii), Tuple.Product(di), dims[|dims| - 1], idx[|idx| - 1]);
    }
  }

  /** Unflatten undoes FlatIndex on in-bounds indices, so FlatIndex is
      injective there. */
  lemma {:induction false} UnflattenFlatIndex(dims: seq<int>, idx: seq<int>)
    requires ValidDims(dims) && InBounds(dims, idx)
    ensures Unflatten(dims, FlatIndex(dims, idx)) == idx
    decreases |dims|
  {
    if |dims| > 1 {
      var di, ii := dims[..|dims| - 1], idx[..|idx| - 1];
      var d, j := dims[|dims| - 1], idx[|idx| - 1];
      UnflattenFlatIndex(di, ii);
      DivModStep(FlatIndex(di, ii), d, j);
      assert ii + [j] == idx;
    }
  }

  /** Every flat position of a non-degenerate array is reached by exactly
      the in-bounds index Unflatten gives. */
  lemma {:induction false} FlatIndexUnflatten(dims: seq<int>, f: int)
    requires ValidDims(dims) && 0 <= f < Tuple.Product(dims)
    ensures InBounds(dims, Unflatten(dims, f))
    ensures FlatIndex(dims, Unflatten(dims, f)) == f
    decreases |dims|
  {
    if |dims| > 1 {
      var di := dims[..|dims| - 1];
      var d := dims[|dims| - 1];
      Tuple.ProductNonNegative(di);
      if d == 0 {
        assert false;
      } else {
        DivBound(f, Tuple.Product(di), d);
        FlatIndexUnflatten(di, f / d);
        var u := Unflatten(dims, f);
        assert u[..|u| - 1] == Unflatten(di, f / d);
      }
    }
  }

  /** Hence FlatIndex is a bijection between the in-bounds indices and
      [0, product(dims)). */
  lemma {:induction false} FlatIndexInjective(dims: seq<int>, a: seq<int>, b: seq<int>)
    requires ValidDims(dims) && InBounds(dims, a) && InBounds(dims, b)
    ensures FlatIndex(dims, a) == FlatIndex(dims, b) <==> a == b
  {
    UnflattenFlatIndex(dims, a);
    UnflattenFlatIndex(dims, b);
  }

  /** The indexing cases of the array tests. */
  lemma {:induction false} FlatIndexExamples()
    ensures FlatIndex([3, 4], [2, 3]) == 11 && FlatIndex([3, 4], [1, 2]) == 6
    ensures FlatIndex([2, 3, 4], [1, 2, 3]) == 23 && FlatIndex([2, 3, 4], [0, 1, 2]) == 6
  {
    FlatIndexSpecialisations([3, 4], [2, 3]);
    FlatIndexSpecialisations([3, 4], [1, 2]);
    FlatIndexSpecialisations([2, 3, 4], [1, 2, 3]);
    FlatIndexSpecialisations([2, 3, 4], [0, 1, 2]);
  }

  // ---------------------------------------------------------------------
  // N-dimensional access: operator()(indices) == operator[](flat_index)

  /** When product(dims) fits in size_t the buffer has product(dims)
      elements, so every in-bounds index reads inside it. */
  lemma {:induction false} InBoundsReadable(a: Arr, idx: seq<int>)
    requires Valid(a) && a.constructed && InBounds(a.dims, idx)
    requires forall k :: 1 <= k <= |a.dims| ==> Tuple.Product(a.dims[..k]) < Tuple.SizeTModulus
    ensures 0 <= FlatIndex(a.dims, idx) < |a.data|
  {
    Tuple.LongProductExact(a.dims);
    FlatIndexInRange(a.dims, idx);
  }

  predicate Fits(dims: seq<int>)
  {
    forall k :: 1 <= k <= |dims| ==> Tuple.Product(dims[..k]) < Tuple.SizeTModulus
  }

  /** operator()(indices): reads operator[](flat_index(indices)). */
  function Get(a: Arr, idx: seq<int>): (r: Result<real>)
    requires Valid(a) && InBounds(a.dims, idx)
    ensures a.constructed && Fits(a.dims) ==> r.Ok?
  {
    FlatIndexInRange(a.dims, idx);
    if a.constructed && Fits(a.dims) then
      InBoundsReadable(a, idx);
      At(a, FlatIndex(a.dims, idx))
    else At(a, FlatIndex(a.dims, idx))
  }

  /** Assignment through operator()(indices). */
  function Set(a: Arr, idx: seq<int>, v: real): (r: Arr)
    requires Valid(a) && a.constructed && InBounds(a.dims, idx) && Fits(a.dims)
    ensures Valid(r) && r.constructed && r.dims == a.dims
  {
    InBoundsReadable(a, idx);
    Store(a, FlatIndex(a.dims, idx), v)
  }

  /** Reading an element back returns what was written there, and writing
      one element leaves every other index untouched. */
  lemma {:induction false} ReadAfterWrite(a: Arr, p: seq<int>, q: seq<int>, v: real)
    requires Valid(a) && a.constructed && Fits(a.dims)
    requires InBounds(a.dims, p) && InBounds(a.dims, q)
    ensures Get(Set(a, p, v), q) == if p == q then Ok(v) else Get(a, q)
  {
    InBoundsReadable(a, p);
    InBoundsReadable(a, q);
    FlatIndexInjective(a.dims, p, q);
  }

  // ---------------------------------------------------------------------
  // Lifecycle properties

  /** With no size_t overflow, a constructed array holds product(dims)
      elements. */
  lemma {:induction false} ConstructSize(a: Arr, dims: seq<int>)
    requires ValidDims(dims) && Fits(dims) && !a.constructed
    ensures Construct(a, dims).Ok? && |Construct(a, dims).value.data| == Tuple.Product(dims)
  {
    Tuple.LongProductExact(dims);
  }

  /** A destructed array can be constructed again, with any dims. */
  lemma {:induction false} DestructThenConstruct(a: Arr, dims: seq<int>)
    requires ValidDims(a.dims) && ValidDims(dims)
    ensures Construct(Destruct(a), dims).Ok?
  {
  }

  /** zero() right after construct() changes nothing, and zero() is
      idempotent. */
  lemma {:induction false} ZeroAfterConstruct(a: Arr, dims: seq<int>)
    requires ValidDims(dims) && !a.constructed
    ensures Zero(Construct(a, dims).value) == Construct(a, dims)
  {
  }

  lemma {:induction false} ZeroIdempotent(a: Arr)
    requires a.constructed
    ensures Zero(Zero(a).value) == Zero(a)
  {
  }

  /** Copying twice from the same source is the same as copying once, and
      the copy reads back the elements of rhs at every index. */
  lemma {:induction false} CopyIdempotent(a: Arr, rhs: Arr)
    requires Valid(a) && Valid(rhs) && Copy(a, rhs).error.None?
    ensures Copy(Copy(a, rhs).after, rhs) == Copy(a, rhs)
  {
  }

  lemma {:induction false} CopyReadsSource(a: Arr, rhs: Arr, idx: seq<int>)
    requires Valid(a) && Valid(rhs) && Copy(a, rhs).error.None? && InBounds(rhs.dims, idx)
    ensures Get(Copy(a, rhs).after, idx) == Get(rhs, idx)
  {
  }

  /** A copy refused for an unconstructed source still constructs an
      unconstructed target, with the source's dims: a later copy from a
      constructed array of those dims succeeds, while a second copy from
      an array of other dims is refused for the size. */
  lemma {:induction false} RefusedCopyConstructs(a: Arr, rhs: Arr, src: Arr)
    requires Valid(a) && Valid(rhs) && Valid(src)
    requires !a.constructed && !rhs.constructed && src.constructed
    ensures Copy(a, rhs).error == Some("Array is not constructed.")
    ensures src.dims == rhs.dims ==> Copy(Copy(a, rhs).after, src) == Attempt(src, None)
    ensures src.dims != rhs.dims ==> Copy(Copy(a, rhs).after, src).error == Some("cannot copy different sized Arrays.")
  {
  }
}
