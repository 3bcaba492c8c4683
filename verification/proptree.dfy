/** Property trees (the subset of boost::property_tree::ptree that the CONF
    parser, the merge utility and the configuration validator use).

    A node holds a data string and an ordered sequence of (key, child)
    pairs; keys may repeat.  Lookup by key uses the first matching child.
    Paths are sequences of keys (the dotted string "a.b" is the path
    ["a", "b"]). */
module PropTree {
  import opened Wrappers

  datatype PTree = PTree(data: string, children: seq<(string, PTree)>)

  function Leaf(v: string): (t: PTree)
    ensures t.data == v && t.children == []
  {
    PTree(v, [])
  }

  function EmptyTree(): (t: PTree)
    ensures t.data == [] && t.children == []
  {
    PTree([], [])
  }

  function Keys(cs: seq<(string, PTree)>): (ks: seq<string>)
    ensures |ks| == |cs| && forall i :: 0 <= i < |cs| ==> ks[i] == cs[i].0
  {
    seq(|cs|, i requires 0 <= i < |cs| => cs[i].0)
  }

  /** find(key): the position of the first child with that key.  The
      position is stated here; that it is the first, and that it is absent
      exactly when no child has the key, is FindSpec below. */
  function Find(cs: seq<(string, PTree)>, k: string): (r: Option<nat>)
    ensures r.Some? ==> r.value < |cs| && cs[r.value].0 == k
  {
    if |cs| == 0 then None
    else if cs[0].0 == k then Some(0)
    else match Find(cs[1..], k)
      case None => None
      case Some(i) => Some(i + 1)
  }

  lemma {:induction false} FindSpec(cs: seq<(string, PTree)>, k: string)
    ensures Find(cs, k).None? <==> k !in Keys(cs)
    ensures Find(cs, k).Some? ==> forall j :: 0 <= j < Find(cs, k).value ==> cs[j].0 != k
  {
    if |cs| > 0 && cs[0].0 != k {
      FindSpec(cs[1..], k);
      assert Keys(cs) == [cs[0].0] + Keys(cs[1..]);
    }
  }

  /** The child under a key, if any. */
  function Child(t: PTree, k: string): (r: Option<PTree>)
  {
    match Find(t.children, k)
      case None => None
      case Some(i) => Some(t.children[i].1)
  }

  lemma {:induction false} ChildSpec(t: PTree, k: string)
    ensures Child(t, k).Some? <==> k in Keys(t.children)
  {
    FindSpec(t.children, k);
  }

  /** get_optional<string>(path): the data at the node the path leads to. */
  function Get(t: PTree, p: seq<string>): Option<string>
    decreases |p|
  {
    if p == [] then Some(t.data)
    else match Child(t, p[0])
      case None => None
      case Some(c) => Get(c, p[1..])
  }

  /** put(path, value): follow the path through first-matching children,
      appending any missing node, and set the data at its end. */
  function Put(t: PTree, p: seq<string>, v: string): (r: PTree)
    ensures p != [] ==> r.data == t.data
    decreases |p|
  {
    if p == [] then t.(data := v)
    else match Find(t.children, p[0])
      case Some(i) =>
        t.(children := t.children[i := (p[0], Put(t.children[i].1, p[1..], v))])
      case None =>
        t.(children := t.children + [(p[0], Put(EmptyTree(), p[1..], v))])
  }

  // ---------------------------------------------------------------------
  // Dotted paths (boost's string_path with separator '.')

  /** The position of the first occurrence of a character. */
  function IndexOf(s: string, c: char): (r: Option<nat>)
    ensures r.None? <==> c !in s
    ensures r.Some? ==> r.value < |s| && s[r.value] == c && c !in s[..r.value]
  {
    if s == [] then None
    else if s[0] == c then Some(0)
    else match IndexOf(s[1..], c)
      case None => None
      case Some(i) =>
        assert s[..i + 1] == [s[0]] + s[1..][..i];
        Some(i + 1)
  }

  lemma {:induction false} IndexOfAfter(a: string, b: string, c: char)
    requires c !in a && b != [] && b[0] == c
    ensures IndexOf(a + b, c) == Some(|a|)
  {
    assert (a + b)[..|a|] == a;
  }

  /** A dotted path string as a sequence of keys: each step takes the text
      up to the next '.', and the path ends when nothing is left after a
      separator, so "a.b" is ["a", "b"], "a." is ["a"] and "" is []. */
  function SplitPath(s: string): (p: seq<string>)
    ensures s == [] <==> p == []
    ensures s != [] && '.' !in s ==> p == [s]
    decreases |s|
  {
    if s == [] then []
    else match IndexOf(s, '.')
      case None => [s]
      case Some(i) => [s[..i]] + SplitPath(s[i + 1..])
  }

  /** The dotted string of a path. */
  function JoinPath(p: seq<string>): (s: string)
    ensures p == [] ==> s == []
    decreases |p|
  {
    if p == [] then []
    else if |p| == 1 then p[0]
    else p[0] + "." + JoinPath(p[1..])
  }

  /** Splitting a joined path gives it back when no key holds a '.' and the
      last key is not empty (a trailing '.' ends a path). */
  lemma {:induction false} SplitJoinPath(p: seq<string>)
    requires forall i :: 0 <= i < |p| ==> '.' !in p[i]
    requires p == [] || p[|p| - 1] != []
    ensures SplitPath(JoinPath(p)) == p
    decreases |p|
  {
    if |p| > 1 {
      var rest := JoinPath(p[1..]);
      SplitPathStep(p[0], rest);
      SplitJoinPath(p[1..]);
    }
  }

  lemma {:induction false} SplitPathStep(k: string, rest: string)
    requires '.' !in k
    ensures SplitPath(k + "." + rest) == [k] + SplitPath(rest)
  {
    var s := k + "." + rest;
    IndexOfAfter(k, ['.'] + rest, '.');
    assert s == k + (['.'] + rest);
    assert s[..|k|] == k;
    assert s[|k| + 1..] == rest;
  }

  predicate IsPrefix(p: seq<string>, q: seq<string>)
  {
    |p| <= |q| && q[..|p|] == p
  }

  /** Reading back a put path gives the value put. */
  lemma {:induction false} GetPutSame(t: PTree, p: seq<string>, v: string)
    ensures Get(Put(t, p, v), p) == Some(v)
    decreases |p|
  {
    if p != [] {
      match Find(t.children, p[0])
      case Some(i) =>
        GetPutSame(t.children[i].1, p[1..], v);
        FindAfterUpdate(t.children, i, p[0], Put(t.children[i].1, p[1..], v));
      case None =>
        GetPutSame(EmptyTree(), p[1..], v);
        FindAfterAppend(t.children, p[0], Put(EmptyTree(), p[1..], v));
    }
  }

  /** A put leaves every path that is not a prefix of the put path as it
      was (a put creates or changes nodes only along its own path). */
  lemma {:induction false} GetPutOther(t: PTree, q: seq<string>, v: string, p: seq<string>)
    requires !IsPrefix(p, q)
    ensures Get(Put(t, q, v), p) == Get(t, p)
    decreases |q|
  {
    assert p != [];
    if q == [] {
    } else {
      var cs := t.children;
      var k := q[0];
      match Find(cs, k)
      case Some(i) =>
        var c' := Put(cs[i].1, q[1..], v);
        var cs' := cs[i := (k, c')];
        FindAfterUpdate(cs, i, k, c');
        if p[0] == k {
          PrefixTail(p, q);
          GetPutOther(cs[i].1, q[1..], v, p[1..]);
        } else {
          FindOtherAfterUpdate(cs, i, k, c', p[0]);
        }
      case None =>
        var c' := Put(EmptyTree(), q[1..], v);
        if p[0] == k {
          FindAfterAppend(cs, k, c');
          GetOfEmpty(p[1..], q[1..], v);
          PrefixTail(p, q);
        } else {
          FindOtherAfterAppend(cs, k, c', p[0]);
        }
    }
  }

  /** A put changes the data only at its own path: every other node that
      already exists keeps its data (nodes on the way are walked through,
      not replaced). */
  lemma {:induction false} GetPutExisting(t: PTree, q: seq<string>, v: string, p: seq<string>)
    requires p != q && Get(t, p).Some?
    ensures Get(Put(t, q, v), p) == Get(t, p)
    decreases |q|
  {
    if !IsPrefix(p, q) {
      GetPutOther(t, q, v, p);
    } else if p != [] {
      assert q[..|p|] == p;
      var i := Find(t.children, q[0]).value;
      var c' := Put(t.children[i].1, q[1..], v);
      FindAfterUpdate(t.children, i, q[0], c');
      PrefixTail(p, q);
      GetPutExisting(t.children[i].1, q[1..], v, p[1..]);
    }
  }

  /** After a put, every path that existed before still exists. */
  lemma {:induction false} GetPutPresent(t: PTree, q: seq<string>, v: string, p: seq<string>)
    requires Get(t, p).Some?
    ensures Get(Put(t, q, v), p).Some?
  {
    if p == q {
      GetPutSame(t, q, v);
    } else {
      GetPutExisting(t, q, v, p);
    }
  }

  /** A put whose path starts under another key leaves that key's first
      child as it was. */
  lemma {:induction false} ChildPutOther(t: PTree, q: seq<string>, v: string, k: string)
    requires q != [] && q[0] != k
    ensures Child(Put(t, q, v), k) == Child(t, k)
  {
    match Find(t.children, q[0])
    case Some(i) =>
      FindOtherAfterUpdate(t.children, i, q[0], Put(t.children[i].1, q[1..], v), k);
    case None =>
      FindOtherAfterAppend(t.children, q[0], Put(EmptyTree(), q[1..], v), k);
  }

  /** Inside a freshly created branch only the put path exists. */
  lemma {:induction false} GetOfEmpty(p: seq<string>, q: seq<string>, v: string)
    requires !IsPrefix(p, q)
    ensures Get(Put(EmptyTree(), q, v), p) == None
    decreases |q|
  {
    assert p != [];
    if q != [] {
      var c' := Put(EmptyTree(), q[1..], v);
      FindAfterAppend([], q[0], c');
      if p[0] == q[0] {
        PrefixTail(p, q);
        GetOfEmpty(p[1..], q[1..], v);
      }
    }
  }

  lemma {:induction false} FindAfterUpdate(cs: seq<(string, PTree)>, i: nat, k: string, c: PTree)
    requires Find(cs, k) == Some(i)
    ensures Find(cs[i := (k, c)], k) == Some(i)
  {
    FindSpec(cs, k);
    FindFirstAt(cs[i := (k, c)], i, k);
  }

  lemma {:induction false} FindOtherAfterUpdate(cs: seq<(string, PTree)>, i: nat, k: string, c: PTree, k2: string)
    requires i < |cs| && cs[i].0 == k && k2 != k
    ensures Find(cs[i := (k, c)], k2) == Find(cs, k2)
    ensures Find(cs, k2).Some? ==> cs[i := (k, c)][Find(cs, k2).value] == cs[Find(cs, k2).value]
  {
    var cs' := cs[i := (k, c)];
    FindSpec(cs, k2);
    if Find(cs, k2).Some? {
      FindFirstAt(cs', Find(cs, k2).value, k2);
    } else {
      assert Keys(cs') == Keys(cs);
      FindSpec(cs', k2);
    }
  }

  lemma {:induction false} FindAfterAppend(cs: seq<(string, PTree)>, k: string, c: PTree)
    requires Find(cs, k).None?
    ensures Find(cs + [(k, c)], k) == Some(|cs|)
  {
    FindSpec(cs, k);
    FindFirstAt(cs + [(k, c)], |cs|, k);
  }

  lemma {:induction false} FindOtherAfterAppend(cs: seq<(string, PTree)>, k: string, c: PTree, k2: string)
    requires k2 != k
    ensures Find(cs + [(k, c)], k2) == Find(cs, k2)
  {
    var cs' := cs + [(k, c)];
    FindSpec(cs, k2);
    if Find(cs, k2).Some? {
      FindFirstAt(cs', Find(cs, k2).value, k2);
    } else {
      assert Keys(cs') == Keys(cs) + [k];
      FindSpec(cs', k2);
    }
  }

  /** Find is characterised by its position: the first index with the key. */
  lemma {:induction false} FindFirstAt(cs: seq<(string, PTree)>, i: nat, k: string)
    requires i < |cs| && cs[i].0 == k && forall j :: 0 <= j < i ==> cs[j].0 != k
    ensures Find(cs, k) == Some(i)
  {
    if i > 0 {
      FindFirstAt(cs[1..], i - 1, k);
    }
  }

  lemma {:induction false} PrefixTail(p: seq<string>, q: seq<string>)
    requires p != [] && q != [] && p[0] == q[0]
    ensures IsPrefix(p, q) <==> IsPrefix(p[1..], q[1..])
  {
    if |p| <= |q| {
      assert q[..|p|] == [q[0]] + q[1..][..|p| - 1];
      assert p == [p[0]] + p[1..];
    }
  }

  /** No key occurs twice among the children. */
  predicate UniqueKeys(cs: seq<(string, PTree)>)
  {
    forall i, j :: 0 <= i < j < |cs| ==> cs[i].0 != cs[j].0
  }
}
