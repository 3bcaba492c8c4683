/** Double buffers (bonelab/DoubleBuffer.hpp).

    Two objects A and B, one of them in the "loading" role and the other
    in the "active" role.  swap() exchanges the roles and moves no data. */
module DoubleBufferModel {
  import opened Wrappers
  import ArrayModel
  import ImageModel

  datatype Role = A | B

  /** The two buffers and which of them is currently loading. */
  datatype DoubleBuffer<T> = DoubleBuffer(a: T, b: T, loading: Role)

  function Other(r: Role): (o: Role)
    ensures o != r
  {
    if r == A then B else A
  }

  /** The default constructor: loading() is A, active() is B. */
  function Init<T>(a: T, b: T): (db: DoubleBuffer<T>)
    ensures LoadingRole(db) == A && ActiveRole(db) == B
    ensures Loading(db) == a && Active(db) == b
  {
    DoubleBuffer(a, b, A)
  }

  function LoadingRole<T>(db: DoubleBuffer<T>): Role
  {
    db.loading
  }

  function ActiveRole<T>(db: DoubleBuffer<T>): (r: Role)
    ensures r != LoadingRole(db)
  {
    Other(db.loading)
  }

  function Buffer<T>(db: DoubleBuffer<T>, r: Role): T
  {
    if r == A then db.a else db.b
  }

  /** loading(): the buffer in the loading role. */
  function Loading<T>(db: DoubleBuffer<T>): T
  {
    Buffer(db, LoadingRole(db))
  }

  /** active(): the buffer in the active role. */
  function Active<T>(db: DoubleBuffer<T>): T
  {
    Buffer(db, ActiveRole(db))
  }

  /** Writing through loading() / active(). */
  function SetLoading<T>(db: DoubleBuffer<T>, x: T): (r: DoubleBuffer<T>)
    ensures Loading(r) == x && Active(r) == Active(db) && LoadingRole(r) == LoadingRole(db)
  {
    if db.loading == A then db.(a := x) else db.(b := x)
  }

  function SetActive<T>(db: DoubleBuffer<T>, x: T): (r: DoubleBuffer<T>)
    ensures Active(r) == x && Loading(r) == Loading(db) && LoadingRole(r) == LoadingRole(db)
  {
    if db.loading == A then db.(b := x) else db.(a := x)
  }

  /** swap(): the roles are exchanged; neither buffer's contents change. */
  function Swap<T>(db: DoubleBuffer<T>): (r: DoubleBuffer<T>)
    ensures LoadingRole(r) == ActiveRole(db) && ActiveRole(r) == LoadingRole(db)
    ensures Loading(r) == Active(db) && Active(r) == Loading(db)
    ensures r.a == db.a && r.b == db.b
  {
    db.(loading := Other(db.loading))
  }

  /** Two swaps restore the original roles. */
  lemma {:induction false} SwapTwice<T>(db: DoubleBuffer<T>)
    ensures Swap(Swap(db)) == db
  {
  }

  /** What was written to the active buffer is found in the loading buffer
      after a swap, and vice versa. */
  lemma {:induction false} SwapCarriesContents<T>(db: DoubleBuffer<T>, x: T, y: T)
    ensures var s := Swap(SetLoading(SetActive(db, x), y));
            Loading(s) == x && Active(s) == y
  {
  }

  // ---------------------------------------------------------------------
  // DoubleBuffer<Array> (DoubleBuffer.hpp:67-191)

  /** construct(dims): A then B are constructed with the same dims; the
      first array error aborts. */
  function ConstructArrays(db: DoubleBuffer<ArrayModel.Arr>, dims: seq<int>)
    : (r: Attempt<DoubleBuffer<ArrayModel.Arr>>)
    requires ArrayModel.ValidDims(dims)
    ensures r.error.None? <==> !db.a.constructed && !db.b.constructed
    ensures r.error.Some? ==> r.error.value == "Array is already constructed."
    ensures r.error.None? ==> r.after.a.dims == dims && r.after.b.dims == dims
    ensures r.error.None? ==> ArrayModel.Valid(r.after.a) && ArrayModel.Valid(r.after.b)
    ensures !db.a.constructed ==> r.after.a.constructed && r.after.a.dims == dims
    ensures db.a.constructed ==> r.after == db
    ensures r.error.Some? ==> r.after.b == db.b
    ensures r.after.loading == db.loading
  {
    match ArrayModel.Construct(db.a, dims)
    case Err(m) => Attempt(db, Some(m))
    case Ok(a) =>
      match ArrayModel.Construct(db.b, dims)
      case Err(m) => Attempt(db.(a := a), Some(m))
      case Ok(b) => Attempt(DoubleBuffer(a, b, db.loading), None)
  }

  /** A refused construct is not always harmless: with B already
      constructed and A not, A is constructed before the error, and
      is_constructed() reports true afterwards. */
  lemma {:induction false} RefusedConstructLeavesAConstructed(db: DoubleBuffer<ArrayModel.Arr>, dims: seq<int>)
    requires ArrayModel.ValidDims(dims) && !db.a.constructed && db.b.constructed
    ensures var r := ConstructArrays(db, dims);
            r.error.Some? && IsConstructed(r.after) && !IsConstructed(db)
  {
  }

  /** destruct(): both arrays are destructed. */
  function DestructArrays(db: DoubleBuffer<ArrayModel.Arr>): (r: DoubleBuffer<ArrayModel.Arr>)
    requires ArrayModel.ValidDims(db.a.dims) && ArrayModel.ValidDims(db.b.dims)
    ensures !IsConstructed(r) && !r.b.constructed && Size(r) == 0
  {
    DoubleBuffer(ArrayModel.Destruct(db.a), ArrayModel.Destruct(db.b), db.loading)
  }

  /** is_constructed(), size() and dims() report buffer A. */
  function IsConstructed(db: DoubleBuffer<ArrayModel.Arr>): bool
  {
    db.a.constructed
  }

  function Size(db: DoubleBuffer<ArrayModel.Arr>): nat
  {
    |db.a.data|
  }

  function Dims(db: DoubleBuffer<ArrayModel.Arr>): seq<int>
  {
    db.a.dims
  }

  /** After construct(dims), both roles see arrays of those dims, whatever
      the swaps since. */
  lemma {:induction false} ConstructedBuffersAgree(db: DoubleBuffer<ArrayModel.Arr>, dims: seq<int>, swaps: nat)
    requires ArrayModel.ValidDims(dims) && ConstructArrays(db, dims).error.None?
    ensures var c := SwapN(ConstructArrays(db, dims).after, swaps);
            IsConstructed(c) && Dims(c) == dims &&
            Active(c).dims == dims && Loading(c).dims == dims &&
            |Active(c).data| == Size(c) && |Loading(c).data| == Size(c)
  {
    SwapNKeepsBuffers(ConstructArrays(db, dims).after, swaps);
  }

  function SwapN<T>(db: DoubleBuffer<T>, n: nat): DoubleBuffer<T>
  {
    if n == 0 then db else Swap(SwapN(db, n - 1))
  }

  lemma {:induction false} SwapNKeepsBuffers<T>(db: DoubleBuffer<T>, n: nat)
    ensures SwapN(db, n).a == db.a && SwapN(db, n).b == db.b
  {
    if n > 0 {
      SwapNKeepsBuffers(db, n - 1);
    }
  }

  // ---------------------------------------------------------------------
  // DoubleBuffer<Image> (DoubleBuffer.hpp:193-341)

  /** construct(dims, spacing, origin): A then B are constructed alike,
      with the same partial outcome as for arrays. */
  function ConstructImages(db: DoubleBuffer<ImageModel.Image>, dims: seq<int>,
                           spacing: seq<real>, origin: seq<real>)
    : (r: Attempt<DoubleBuffer<ImageModel.Image>>)
    requires ArrayModel.ValidDims(dims) && |spacing| == |origin| == |dims|
    ensures r.error.None? <==> !db.a.arr.constructed && !db.b.arr.constructed
    ensures r.error.None? ==> r.after.a.arr.dims == dims && r.after.b.arr.dims == dims
    ensures r.error.None? ==> r.after.a.spacing == spacing && r.after.b.spacing == spacing
    ensures r.error.None? ==> r.after.a.origin == origin && r.after.b.origin == origin
    ensures !db.a.arr.constructed ==> r.after.a.arr.constructed && r.after.a.spacing == spacing
    ensures r.error.Some? ==> r.after.b == db.b
  {
    match ImageModel.Construct(db.a, dims, spacing, origin)
    case Err(m) => Attempt(db, Some(m))
    case Ok(a) =>
      match ImageModel.Construct(db.b, dims, spacing, origin)
      case Err(m) => Attempt(db.(a := a), Some(m))
      case Ok(b) => Attempt(DoubleBuffer(a, b, db.loading), None)
  }

  /** spacing() and origin() report buffer A. */
  function Spacing(db: DoubleBuffer<ImageModel.Image>): seq<real>
  {
    db.a.spacing
  }

  function Origin(db: DoubleBuffer<ImageModel.Image>): seq<real>
  {
    db.a.origin
  }
}
