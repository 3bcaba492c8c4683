/** Division of a volume into slabs along z (source/util/Subvolumer.hpp).

    Subvolumer.txx, which holds the constructor's body, is not part of this
    model.  The partition here is the one the header documents and the
    tests pin down: the slab depths differ by at most one, they sum to the
    z dimension, and each slab starts where the previous one ends.  Which
    slabs receive the extra slice is not observable in the tests; here the
    first dimZ % n slabs are one slice deeper. */
module Subvolumer {

  /** One subvolume: its dims (z, y, x) and its origin. */
  datatype Slab = Slab(dims: seq<int>, origin: seq<real>)

  /** The z size of slab i of n, for a volume of dimZ slices. */
  function SlabSize(dimZ: nat, n: nat, i: nat): (s: nat)
    requires n >= 1
    ensures dimZ / n <= s <= dimZ / n + 1
  {
    dimZ / n + (if i < dimZ % n then 1 else 0)
  }

  /** The first z index of slab i: the depth of all slabs before it. */
  function StartIndex(dimZ: nat, n: nat, i: nat): nat
    requires n >= 1
  {
    if i == 0 then 0 else StartIndex(dimZ, n, i - 1) + SlabSize(dimZ, n, i - 1)
  }

  function Min(a: int, b: int): int
  {
    if a <= b then a else b
  }

  /** Subvolumer(dims, spacing, origin, subvolumes): slab i has the y and x
      dims of the volume, depth SlabSize, and its z origin advanced by the
      depth of the slabs before it. */
  function Subvolumes(dims: seq<int>, spacing: seq<real>, origin: seq<real>, n: int): (r: seq<Slab>)
    requires |dims| == |spacing| == |origin| == 3 && dims[0] >= 0 && n >= 1
    ensures |r| == n
    ensures forall i :: 0 <= i < n ==>
              |r[i].dims| == 3 && |r[i].origin| == 3 &&
              r[i].dims[1] == dims[1] && r[i].dims[2] == dims[2] &&
              r[i].origin[1] == origin[1] && r[i].origin[2] == origin[2]
    ensures forall i :: 0 <= i < n ==> dims[0] / n <= r[i].dims[0] <= dims[0] / n + 1
    ensures r[0].origin == origin
  {
    seq(n, i requires 0 <= i < n =>
      Slab([SlabSize(dims[0], n, i), dims[1], dims[2]],
           [origin[0] + spacing[0] * StartIndex(dims[0], n, i) as real, origin[1], origin[2]]))
  }

  // ---------------------------------------------------------------------
  // The partition

  lemma {:induction false} StartClosedForm(dimZ: nat, n: nat, i: nat)
    requires n >= 1
    ensures StartIndex(dimZ, n, i) == i * (dimZ / n) + Min(i, dimZ % n)
  {
    if i > 0 {
      StartClosedForm(dimZ, n, i - 1);
      var q := dimZ / n;
      assert i * q == (i - 1) * q + q;
    }
  }

  /** The depths of the n slabs add up to the depth of the volume. */
  lemma {:induction false} SizesSumToDepth(dimZ: nat, n: nat)
    requires n >= 1
    ensures StartIndex(dimZ, n, n) == dimZ
  {
    StartClosedForm(dimZ, n, n);
  }

  /** Later slabs never start earlier. */
  lemma {:induction false} StartMonotone(dimZ: nat, n: nat, i: nat, j: nat)
    requires n >= 1 && i <= j
    ensures StartIndex(dimZ, n, i) <= StartIndex(dimZ, n, j)
    decreases j
  {
    if i < j {
      StartMonotone(dimZ, n, i, j - 1);
    }
  }

  /** The slab holding slice z: the last slab that starts at or before it. */
  function SlabOf(dimZ: nat, n: nat, z: nat): (i: nat)
    requires n >= 1 && z < dimZ
    ensures i < n && StartIndex(dimZ, n, i) <= z < StartIndex(dimZ, n, i + 1)
  {
    SizesSumToDepth(dimZ, n);
    SearchDown(dimZ, n, z, n - 1)
  }

  function SearchDown(dimZ: nat, n: nat, z: nat, i: nat): (k: nat)
    requires n >= 1 && i < n && z < StartIndex(dimZ, n, i + 1)
    ensures k <= i && StartIndex(dimZ, n, k) <= z < StartIndex(dimZ, n, k + 1)
  {
    if StartIndex(dimZ, n, i) <= z then i else SearchDown(dimZ, n, z, i - 1)
  }

  /** No slice lies in two slabs: the slabs tile the volume. */
  lemma {:induction false} SlabOfUnique(dimZ: nat, n: nat, z: nat, i: nat)
    requires n >= 1 && z < dimZ && i < n
    requires StartIndex(dimZ, n, i) <= z < StartIndex(dimZ, n, i + 1)
    ensures SlabOf(dimZ, n, z) == i
  {
    var k := SlabOf(dimZ, n, z);
    if k < i {
      StartMonotone(dimZ, n, k + 1, i);
    } else if i < k {
      StartMonotone(dimZ, n, i + 1, k);
    }
  }

  /** Any two slabs differ in depth by at most one slice, and all have the
      same depth when n divides dimZ. */
  lemma {:induction false} SlabsBalanced(dimZ: nat, n: nat, i: nat, j: nat)
    requires n >= 1
    ensures -1 <= SlabSize(dimZ, n, i) - SlabSize(dimZ, n, j) <= 1
    ensures dimZ % n == 0 ==> SlabSize(dimZ, n, i) == SlabSize(dimZ, n, j) == dimZ / n
  {
  }

  /** With more slabs than slices, every slab is at most one slice deep
      and at least one is empty. */
  lemma {:induction false} MoreSlabsThanSlices(dimZ: nat, n: nat)
    requires n > dimZ
    ensures forall i :: 0 <= i < n ==> SlabSize(dimZ, n, i) <= 1
    ensures SlabSize(dimZ, n, n - 1) == 0
  {
  }

  /** Each slab's z origin is the previous slab's advanced by that slab's
      depth in voxels. */
  lemma {:induction false} OriginsAdvance(dims: seq<int>, spacing: seq<real>, origin: seq<real>, n: int, i: int)
    requires |dims| == |spacing| == |origin| == 3 && dims[0] >= 0 && n >= 1
    requires 0 < i < n
    ensures var r := Subvolumes(dims, spacing, origin, n);
            r[i].origin[0] == r[i - 1].origin[0] + spacing[0] * r[i - 1].dims[0] as real
  {
    var r := Subvolumes(dims, spacing, origin, n);
    var z, k := dims[0], i - 1;
    var a, b := StartIndex(z, n, k), SlabSize(z, n, k);
    assert StartIndex(z, n, i) == a + b;
    SlabAt(dims, spacing, origin, n, i);
    SlabAt(dims, spacing, origin, n, k);
    Distribute(spacing[0], a as real, b as real);
  }

  /** Slab i of the partition, spelled out. */
  lemma {:induction false} SlabAt(dims: seq<int>, spacing: seq<real>, origin: seq<real>, n: int, i: int)
    requires |dims| == |spacing| == |origin| == 3 && dims[0] >= 0 && n >= 1
    requires 0 <= i < n
    ensures var r := Subvolumes(dims, spacing, origin, n);
            r[i].dims[0] == SlabSize(dims[0], n, i)
            && r[i].origin[0] == origin[0] + spacing[0] * StartIndex(dims[0], n, i) as real
  {
  }

  lemma Distribute(s: real, a: real, b: real)
    ensures s * (a + b) == s * a + s * b
  {
  }

  /** One subvolume is the whole volume. */
  lemma {:induction false} OneSlabIsWhole(dims: seq<int>, spacing: seq<real>, origin: seq<real>)
    requires |dims| == |spacing| == |origin| == 3 && dims[0] >= 0
    ensures Subvolumes(dims, spacing, origin, 1) == [Slab(dims, origin)]
  {
    var r := Subvolumes(dims, spacing, origin, 1);
    assert r[0].dims == dims;
  }

  /** TwoIntoTwo and ThreeIntoFive of the Subvolumer tests. */
  lemma {:induction false} SubvolumerExamples()
    ensures Subvolumes([2, 3, 4], [0.1, 0.2, 0.4], [-10.0, 2.0, 5.0], 2)
            == [Slab([1, 3, 4], [-10.0, 2.0, 5.0]), Slab([1, 3, 4], [-9.9, 2.0, 5.0])]
    ensures var r := Subvolumes([3, 3, 4], [0.1, 0.2, 0.4], [-10.0, 2.0, 5.0], 5);
            r[0].dims[0] + r[1].dims[0] + r[2].dims[0] + r[3].dims[0] + r[4].dims[0] == 3
  {
    var r := Subvolumes([2, 3, 4], [0.1, 0.2, 0.4], [-10.0, 2.0, 5.0], 2);
    assert StartIndex(2, 2, 1) == 1;
    assert r[1].dims == [1, 3, 4];
  }
}
