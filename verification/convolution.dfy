/** The direct-convolution projection filterer
    (source/filtering/ProjectionFilterer_Convolution.cpp, with the settings
    of source/filtering/ProjectionFilterer.hpp).

    Initialize builds a real-space ramp kernel twice as long as a
    projection row; FilterProjection then convolves every row with it:
    out(i, j) = sum over k of in(i, k) * ramp[|k - j|].  A projection is
    modelled as its rows of pixels plus the pixel spacing along a row. */
module Convolution {
  import opened Wrappers
  import ArrayModel
  import Filters

  const SmoothingMessage: string := "Convolution Filterer can't accept a Smoothing Filter"

  /** The filterer's state: the projection dims (rows, row length), pixel
      spacing, weight, whether a smoothing filter was set, and the kernel
      array (unconstructed until Initialize). */
  datatype Filterer = Filterer(rows: int, cols: int, spacing: real, weight: real,
                               smoothing: bool, ramp: ArrayModel.Arr)

  /** A projection: rows of pixels, each width long, and the spacing along
      a row. */
  datatype Projection = Projection(pixels: seq<seq<real>>, width: int, spacing: real)

  predicate Shaped(p: Projection)
  {
    forall i :: 0 <= i < |p.pixels| ==> |p.pixels[i]| == p.width
  }

  /** The base-class defaults after SetDimensions: unit spacing and weight,
      no smoothing filter, no kernel. */
  function NewFilterer(rows: int, cols: int): (f: Filterer)
    ensures f.spacing == 1.0 && f.weight == 1.0 && !f.smoothing && !f.ramp.constructed
    ensures f.rows == rows && f.cols == cols
  {
    Filterer(rows, cols, 1.0, 1.0, false, ArrayModel.Empty(1))
  }

  /** The kernel generator Initialize configures. */
  function KernelOf(f: Filterer): (g: Filters.Ramp)
    ensures g.length == 2 * f.cols && g.spacing == f.spacing && g.weight == f.weight
  {
    Filters.Ramp(2 * f.cols, f.spacing, f.weight)
  }

  /** Initialize: refuses a second call and a smoothing filter, then
      constructs the ramp kernel of length 2 cols. */
  method Initialize(f: Filterer, m: Filters.Maths) returns (r: Result<Filterer>)
    requires f.spacing != 0.0 && m.pi != 0.0
    ensures r.Ok? <==> !f.ramp.constructed && !f.smoothing && f.cols > 0
    ensures f.ramp.constructed ==> r == Err(AssertionMessage)
    ensures !f.ramp.constructed && f.smoothing ==> r == Err(SmoothingMessage)
    ensures !f.ramp.constructed && !f.smoothing && f.cols <= 0 ==> r == Err(AssertionMessage)
    ensures r.Ok? ==> r.value == f.(ramp := r.value.ramp)
    ensures r.Ok? ==> KernelReady(r.value, m)
  {
    if f.ramp.constructed {
      return Err(AssertionMessage);
    }
    if f.smoothing {
      return Err(SmoothingMessage);
    }
    var g := KernelOf(f);
    var data :- Filters.ConstructRealSpaceFilter(g, m, f.ramp);
    r := Ok(f.(ramp := ArrayModel.Arr(true, [g.length], data)));
  }

  /** The state after Initialize: a constructed kernel of length 2 cols
      holding the ramp samples. */
  predicate KernelReady(f: Filterer, m: Filters.Maths)
    requires f.spacing != 0.0 && m.pi != 0.0
  {
    f.cols > 0 && f.ramp.constructed && |f.ramp.data| == 2 * f.cols &&
    forall j :: 0 <= j < 2 * f.cols ==>
      f.ramp.data[j] == Filters.RampValue(KernelOf(f), m, Filters.Offset(2 * f.cols, j))
  }

  /** Every distance |k - j| within a row reads the ramp's own sample at
      that offset: the kernel is long enough that no wrap-around occurs. */
  lemma {:induction false} KernelAtDistance(f: Filterer, m: Filters.Maths, d: int)
    requires f.spacing != 0.0 && m.pi != 0.0 && KernelReady(f, m)
    requires 0 <= d < f.cols
    ensures f.ramp.data[d] == Filters.RampValue(KernelOf(f), m, d)
  {
  }

  // ---------------------------------------------------------------------
  // The row convolution

  function Dist(k: int, j: int): (d: nat)
    ensures d == k - j || d == j - k
  {
    if k >= j then k - j else j - k
  }

  /** in(k) * kernel[|k - j|] summed over the first n columns k. */
  function Tap(row: seq<real>, kernel: seq<real>, j: int, n: int): real
    requires 0 <= j < |row| && 0 <= n <= |row| && |kernel| >= |row|
  {
    if n == 0 then 0.0
    else Tap(row, kernel, j, n - 1) + row[n - 1] * kernel[Dist(n - 1, j)]
  }

  /** The filtered row: column j is the full tap sum. */
  function FilteredRow(row: seq<real>, kernel: seq<real>): (r: seq<real>)
    requires |kernel| >= |row|
    ensures |r| == |row|
  {
    seq(|row|, j requires 0 <= j < |row| => Tap(row, kernel, j, |row|))
  }

  /** The innermost loop: out(i, j) += in(i, k) * ramp(|k - j|) for each k,
      starting from the zeroed output. */
  method FilterCell(row: seq<real>, kernel: seq<real>, j: int) returns (acc: real)
    requires 0 <= j < |row| && |kernel| >= |row|
    ensures acc == Tap(row, kernel, j, |row|)
  {
    acc := 0.0;
    var k := 0;
    while k < |row|
      invariant 0 <= k <= |row|
      invariant acc == Tap(row, kernel, j, k)
    {
      acc := acc + row[k] * kernel[Dist(k, j)];
      k := k + 1;
    }
  }

  /** The middle loop: every column of one row. */
  method FilterRow(row: seq<real>, kernel: seq<real>) returns (out: seq<real>)
    requires |kernel| >= |row|
    ensures out == FilteredRow(row, kernel)
  {
    out := [];
    var j := 0;
    while j < |row|
      invariant 0 <= j <= |row| && |out| == j
      invariant forall c :: 0 <= c < j ==> out[c] == Tap(row, kernel, c, |row|)
    {
      var v := FilterCell(row, kernel, j);
      out := out + [v];
      j := j + 1;
    }
  }

  /** FilterProjection: the asserts on the kernel and the shapes, then
      every row filtered; out keeps its own spacing. */
  method FilterProjection(f: Filterer, input: Projection, output: Projection) returns (r: Result<Projection>)
    requires Shaped(input) && Shaped(output)
    ensures r.Ok? <==> f.ramp.constructed && |input.pixels| == |output.pixels| &&
                       input.width == f.cols && output.width == f.cols &&
                       input.spacing == f.spacing && |f.ramp.data| >= f.cols
    ensures r.Err? && |f.ramp.data| >= f.cols ==> r.msg == AssertionMessage
    ensures (r.Err? && f.ramp.constructed && |input.pixels| == |output.pixels| &&
             input.width == f.cols && output.width == f.cols && input.spacing == f.spacing)
            ==> r.msg == ArrayModel.IndexMessage
    ensures r.Ok? ==> r.value.width == output.width && r.value.spacing == output.spacing
    ensures r.Ok? ==> |r.value.pixels| == |input.pixels| &&
                      forall i :: 0 <= i < |input.pixels| ==>
                        r.value.pixels[i] == FilteredRow(input.pixels[i], f.ramp.data)
  {
    if !f.ramp.constructed || |input.pixels| != |output.pixels| || input.width != f.cols ||
       output.width != f.cols || input.spacing != f.spacing {
      return Err(AssertionMessage);
    }
    if |f.ramp.data| < f.cols {
      // The kernel is read past its end: the array's range check fails.
      return Err(ArrayModel.IndexMessage);
    }
    var rows := [];
    var i := 0;
    while i < |input.pixels|
      invariant 0 <= i <= |input.pixels| && |rows| == i
      invariant forall c :: 0 <= c < i ==> rows[c] == FilteredRow(input.pixels[c], f.ramp.data)
    {
      var row := FilterRow(input.pixels[i], f.ramp.data);
      rows := rows + [row];
      i := i + 1;
    }
    r := Ok(Projection(rows, output.width, output.spacing));
  }

  // ---------------------------------------------------------------------
  // Properties of the convolution

  /** A zero row filters to a zero row. */
  lemma {:induction false} ZeroTap(row: seq<real>, kernel: seq<real>, j: int, n: int)
    requires 0 <= j < |row| && 0 <= n <= |row| && |kernel| >= |row|
    requires forall k :: 0 <= k < |row| ==> row[k] == 0.0
    ensures Tap(row, kernel, j, n) == 0.0
  {
    if n > 0 {
      ZeroTap(row, kernel, j, n - 1);
    }
  }

  lemma {:induction false} ZeroRowFiltersToZero(row: seq<real>, kernel: seq<real>)
    requires |kernel| >= |row|
    requires forall k :: 0 <= k < |row| ==> row[k] == 0.0
    ensures forall j :: 0 <= j < |row| ==> FilteredRow(row, kernel)[j] == 0.0
  {
    forall j | 0 <= j < |row|
      ensures FilteredRow(row, kernel)[j] == 0.0
    {
      ZeroTap(row, kernel, j, |row|);
    }
  }

  /** The filter is additive: filtering the sum of two rows gives the sum
      of the filtered rows. */
  lemma {:induction false} TapAdditive(a: seq<real>, b: seq<real>, s: seq<real>, kernel: seq<real>, j: int, n: int)
    requires |a| == |b| == |s| && |kernel| >= |a|
    requires 0 <= j < |a| && 0 <= n <= |a|
    requires forall k :: 0 <= k < |a| ==> s[k] == a[k] + b[k]
    ensures Tap(s, kernel, j, n) == Tap(a, kernel, j, n) + Tap(b, kernel, j, n)
  {
    if n > 0 {
      TapAdditive(a, b, s, kernel, j, n - 1);
      var w := kernel[Dist(n - 1, j)];
      assert s[n - 1] * w == a[n - 1] * w + b[n - 1] * w;
    }
  }

  lemma {:induction false} FilterAdditive(a: seq<real>, b: seq<real>, s: seq<real>, kernel: seq<real>)
    requires |a| == |b| == |s| && |kernel| >= |a|
    requires forall k :: 0 <= k < |a| ==> s[k] == a[k] + b[k]
    ensures forall j :: 0 <= j < |a| ==>
              FilteredRow(s, kernel)[j] == FilteredRow(a, kernel)[j] + FilteredRow(b, kernel)[j]
  {
    forall j | 0 <= j < |a|
      ensures FilteredRow(s, kernel)[j] == FilteredRow(a, kernel)[j] + FilteredRow(b, kernel)[j]
    {
      TapAdditive(a, b, s, kernel, j, |a|);
    }
  }

  /** An impulse at column c comes out as the kernel centred on c:
      out(j) = ramp[|c - j|]. */
  lemma {:induction false} TapImpulse(row: seq<real>, kernel: seq<real>, c: int, j: int, n: int)
    requires |kernel| >= |row| && 0 <= j < |row| && 0 <= c < |row| && 0 <= n <= |row|
    requires forall k :: 0 <= k < |row| ==> row[k] == (if k == c then 1.0 else 0.0)
    ensures Tap(row, kernel, j, n) == (if c < n then kernel[Dist(c, j)] else 0.0)
  {
    if n > 0 {
      TapImpulse(row, kernel, c, j, n - 1);
    }
  }
}
