/** Merging property trees (bonelab/boost/property_tree/util.hpp).

    merge(a, b, overwrite) visits the children of b in order.  A child
    without children of its own is a leaf: its data is put into a at the
    dotted key "prefix + key", unless the path already exists there and
    overwrite is off.  Any other child is merged recursively with the
    prefix extended by "key.".  The data of inner nodes of b is ignored. */
module TreeMerge {
  import opened Wrappers
  import opened PropTree

  /** One leaf of b arriving at a (util.hpp:18-26): get_optional decides
      whether the path exists; put writes the value. */
  function MergeLeaf(a: PTree, key: string, value: string, overwrite: bool): (r: PTree)
    ensures overwrite || Get(a, SplitPath(key)).None? ==>
              Get(r, SplitPath(key)) == Some(value)
    ensures !overwrite && Get(a, SplitPath(key)).Some? ==> r == a
  {
    var p := SplitPath(key);
    if overwrite || Get(a, p).None? then
      GetPutSame(a, p, value);
      Put(a, p, value)
    else a
  }

  /** merge(a, b, overwrite, prefix) from the i-th child of b on
      (util.hpp:14-32). */
  function MergeFrom(a: PTree, b: PTree, i: nat, overwrite: bool, prefix: string): PTree
    requires i <= |b.children|
    decreases b, |b.children| - i
  {
    if i == |b.children| then a
    else
      var (k, c) := b.children[i];
      var a' := if c.children == [] then MergeLeaf(a, prefix + k, c.data, overwrite)
                else MergeFrom(a, c, 0, overwrite, prefix + k + ".");
      MergeFrom(a', b, i + 1, overwrite, prefix)
  }

  /** merge(a, b, overwrite) with the default empty prefix. */
  function Merge(a: PTree, b: PTree, overwrite: bool): PTree
  {
    MergeFrom(a, b, 0, overwrite, "")
  }

  // ---------------------------------------------------------------------
  // Reference definition: the leaves of b, then one put per leaf

  /** The leaves of b in visiting order, each with its dotted key. */
  function Leaves(b: PTree, i: nat, prefix: string): seq<(string, string)>
    requires i <= |b.children|
    decreases b, |b.children| - i
  {
    if i == |b.children| then []
    else
      var (k, c) := b.children[i];
      (if c.children == [] then [(prefix + k, c.data)]
       else Leaves(c, 0, prefix + k + "."))
      + Leaves(b, i + 1, prefix)
  }

  /** The leaves applied one after the other. */
  function PutAll(a: PTree, ls: seq<(string, string)>, overwrite: bool): PTree
    decreases |ls|
  {
    if ls == [] then a
    else PutAll(MergeLeaf(a, ls[0].0, ls[0].1, overwrite), ls[1..], overwrite)
  }

  lemma {:induction false} PutAllAppend(a: PTree, x: seq<(string, string)>, y: seq<(string, string)>,
                                        overwrite: bool)
    ensures PutAll(a, x + y, overwrite) == PutAll(PutAll(a, x, overwrite), y, overwrite)
    decreases |x|
  {
    if x != [] {
      assert (x + y)[1..] == x[1..] + y;
      PutAllAppend(MergeLeaf(a, x[0].0, x[0].1, overwrite), x[1..], y, overwrite);
    } else {
      assert x + y == y;
    }
  }

  /** The recursive merge is the same as putting the flattened leaves in
      order. */
  lemma {:induction false} MergeIsPutAll(a: PTree, b: PTree, i: nat, overwrite: bool, prefix: string)
    requires i <= |b.children|
    ensures MergeFrom(a, b, i, overwrite, prefix) == PutAll(a, Leaves(b, i, prefix), overwrite)
    decreases b, |b.children| - i
  {
    if i < |b.children| {
      var (k, c) := b.children[i];
      var here := if c.children == [] then [(prefix + k, c.data)]
                  else Leaves(c, 0, prefix + k + ".");
      var a' := if c.children == [] then MergeLeaf(a, prefix + k, c.data, overwrite)
                else MergeFrom(a, c, 0, overwrite, prefix + k + ".");
      if c.children == [] {
        assert PutAll(a, here, overwrite) == a' by {
          assert here[1..] == [];
        }
      } else {
        MergeIsPutAll(a, c, 0, overwrite, prefix + k + ".");
      }
      MergeIsPutAll(a', b, i + 1, overwrite, prefix);
      PutAllAppend(a, here, Leaves(b, i + 1, prefix), overwrite);
    }
  }

  // ---------------------------------------------------------------------
  // Properties

  function PathOf(l: (string, string)): seq<string>
  {
    SplitPath(l.0)
  }

  /** Without overwrite, every path that exists in a keeps its value
      (property_tree_util_Tests.cpp:15-29). */
  lemma {:induction false} PutAllKeepsExisting(a: PTree, ls: seq<(string, string)>, p: seq<string>)
    requires Get(a, p).Some?
    ensures Get(PutAll(a, ls, false), p) == Get(a, p)
    decreases |ls|
  {
    if ls != [] {
      var q := PathOf(ls[0]);
      var a' := MergeLeaf(a, ls[0].0, ls[0].1, false);
      if Get(a, q).None? {
        GetPutExisting(a, q, ls[0].1, p);
      }
      PutAllKeepsExisting(a', ls[1..], p);
    }
  }

  lemma {:induction false} MergeKeepsExisting(a: PTree, b: PTree, p: seq<string>)
    requires Get(a, p).Some?
    ensures Get(Merge(a, b, false), p) == Get(a, p)
  {
    MergeIsPutAll(a, b, 0, false, "");
    PutAllKeepsExisting(a, Leaves(b, 0, ""), p);
  }

  /** Paths of a that no leaf of b names keep their value, whatever the
      flag (util.hpp:14-32). */
  lemma {:induction false} PutAllKeepsUnnamed(a: PTree, ls: seq<(string, string)>, overwrite: bool,
                                              p: seq<string>)
    requires Get(a, p).Some?
    requires forall j :: 0 <= j < |ls| ==> PathOf(ls[j]) != p
    ensures Get(PutAll(a, ls, overwrite), p) == Get(a, p)
    decreases |ls|
  {
    if ls != [] {
      var a' := MergeLeaf(a, ls[0].0, ls[0].1, overwrite);
      assert PathOf(ls[0]) != p;
      GetPutExisting(a, PathOf(ls[0]), ls[0].1, p);
      assert forall j :: 0 <= j < |ls| - 1 ==> PathOf(ls[1..][j]) == PathOf(ls[j + 1]);
      PutAllKeepsUnnamed(a', ls[1..], overwrite, p);
    }
  }

  lemma {:induction false} MergeKeepsUnnamed(a: PTree, b: PTree, overwrite: bool, p: seq<string>)
    requires Get(a, p).Some?
    requires forall l :: l in Leaves(b, 0, "") ==> SplitPath(l.0) != p
    ensures Get(Merge(a, b, overwrite), p) == Get(a, p)
  {
    var ls := Leaves(b, 0, "");
    MergeIsPutAll(a, b, 0, overwrite, "");
    assert forall j :: 0 <= j < |ls| ==> PathOf(ls[j]) != p by {
      forall j | 0 <= j < |ls| ensures PathOf(ls[j]) != p {
        assert ls[j] in ls;
      }
    }
    PutAllKeepsUnnamed(a, ls, overwrite, p);
  }

  /** Every leaf path of b exists after the merge, whatever the flag. */
  lemma {:induction false} PutAllPresent(a: PTree, ls: seq<(string, string)>, overwrite: bool, j: nat)
    requires j < |ls|
    ensures Get(PutAll(a, ls, overwrite), PathOf(ls[j])).Some?
    decreases |ls|
  {
    var a' := MergeLeaf(a, ls[0].0, ls[0].1, overwrite);
    if j == 0 {
      PutAllKeepsPresent(a', ls[1..], overwrite, PathOf(ls[0]));
    } else {
      assert ls[1..][j - 1] == ls[j];
      PutAllPresent(a', ls[1..], overwrite, j - 1);
    }
  }

  lemma {:induction false} PutAllKeepsPresent(a: PTree, ls: seq<(string, string)>, overwrite: bool,
                                              p: seq<string>)
    requires Get(a, p).Some?
    ensures Get(PutAll(a, ls, overwrite), p).Some?
    decreases |ls|
  {
    if ls != [] {
      var a' := MergeLeaf(a, ls[0].0, ls[0].1, overwrite);
      GetPutPresent(a, PathOf(ls[0]), ls[0].1, p);
      PutAllKeepsPresent(a', ls[1..], overwrite, p);
    }
  }

  /** With overwrite, the last leaf of b on a path decides its value
      (property_tree_util_Tests.cpp:31-45). */
  lemma {:induction false} PutAllLastWins(a: PTree, ls: seq<(string, string)>, j: nat)
    requires j < |ls|
    requires forall m :: j < m < |ls| ==> PathOf(ls[m]) != PathOf(ls[j])
    ensures Get(PutAll(a, ls, true), PathOf(ls[j])) == Some(ls[j].1)
    decreases |ls|
  {
    var a' := MergeLeaf(a, ls[0].0, ls[0].1, true);
    if j == 0 {
      assert forall m :: 0 <= m < |ls| - 1 ==> PathOf(ls[1..][m]) == PathOf(ls[m + 1]);
      PutAllKeepsUnnamed(a', ls[1..], true, PathOf(ls[0]));
    } else {
      assert ls[1..][j - 1] == ls[j];
      assert forall m :: j - 1 < m < |ls| - 1 ==> PathOf(ls[1..][m]) == PathOf(ls[m + 1]);
      PutAllLastWins(a', ls[1..], j - 1);
    }
  }

  lemma {:induction false} MergeOverwriteLastWins(a: PTree, b: PTree, j: nat)
    requires j < |Leaves(b, 0, "")|
    requires var ls := Leaves(b, 0, "");
             forall m :: j < m < |ls| ==> SplitPath(ls[m].0) != SplitPath(ls[j].0)
    ensures var l := Leaves(b, 0, "")[j];
            Get(Merge(a, b, true), SplitPath(l.0)) == Some(l.1)
  {
    MergeIsPutAll(a, b, 0, true, "");
    PutAllLastWins(a, Leaves(b, 0, ""), j);
  }

  /** Without overwrite, a leaf of b reaches a path that neither a nor any
      earlier leaf created. */
  lemma {:induction false} PutAllFirstNew(a: PTree, ls: seq<(string, string)>, j: nat)
    requires j < |ls| && Get(a, PathOf(ls[j])).None?
    requires forall m :: 0 <= m < j ==> !IsPrefix(PathOf(ls[j]), PathOf(ls[m]))
    ensures Get(PutAll(a, ls, false), PathOf(ls[j])) == Some(ls[j].1)
    decreases |ls|
  {
    var a' := MergeLeaf(a, ls[0].0, ls[0].1, false);
    if j == 0 {
      PutAllKeepsExisting(a', ls[1..], PathOf(ls[0]));
    } else {
      MergeLeafKeepsAbsent(a, ls[0], PathOf(ls[j]));
      assert ls[1..][j - 1] == ls[j];
      assert forall m :: 0 <= m < j - 1 ==> PathOf(ls[1..][m]) == PathOf(ls[m + 1]);
      PutAllFirstNew(a', ls[1..], j - 1);
    }
  }

  lemma {:induction false} MergeLeafKeepsAbsent(a: PTree, l: (string, string), p: seq<string>)
    requires Get(a, p).None? && !IsPrefix(p, PathOf(l))
    ensures Get(MergeLeaf(a, l.0, l.1, false), p).None?
  {
    if Get(a, PathOf(l)).None? {
      GetPutOther(a, PathOf(l), l.1, p);
    }
  }

  lemma {:induction false} MergeAddsNew(a: PTree, b: PTree, j: nat)
    requires j < |Leaves(b, 0, "")|
    requires var ls := Leaves(b, 0, "");
             Get(a, SplitPath(ls[j].0)).None? &&
             forall m :: 0 <= m < j ==> !IsPrefix(SplitPath(ls[j].0), SplitPath(ls[m].0))
    ensures var l := Leaves(b, 0, "")[j];
            Get(Merge(a, b, false), SplitPath(l.0)) == Some(l.1)
  {
    MergeIsPutAll(a, b, 0, false, "");
    PutAllFirstNew(a, Leaves(b, 0, ""), j);
  }

  lemma {:induction false} MergePresent(a: PTree, b: PTree, overwrite: bool, j: nat)
    requires j < |Leaves(b, 0, "")|
    ensures Get(Merge(a, b, overwrite), SplitPath(Leaves(b, 0, "")[j].0)).Some?
  {
    MergeIsPutAll(a, b, 0, overwrite, "");
    PutAllPresent(a, Leaves(b, 0, ""), overwrite, j);
  }
}
