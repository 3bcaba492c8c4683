/** What read_conf can produce (bonelab/boost/property_tree/conf_parser.hpp,
    read_conf): every tree it returns is one that write_conf accepts and
    that survives a write and a read unchanged. */
module ConfReadInvariant {
  import opened Wrappers
  import opened PropTree
  import Text
  import opened ConfReader
  import opened ConfWriter
  import opened ConfRoundTrip

  /** An entry opened by a header: a valid name, no data, leaves below
      (possibly none yet). */
  predicate SectionLike(e: (string, PTree))
  {
    SectionNameOk(e.0) && e.1.data == [] && SectionBody(e.1.children)
  }

  /** The parser state between lines: before the first header the root
      holds only leaves; after it, the open section is last and everything
      before it is already in final form. */
  predicate Inv(st: ReadState)
  {
    UniqueKeys(st.root) &&
    (!st.inSection ==> forall i :: 0 <= i < |st.root| ==> LeafEntry(st.root[i])) &&
    (st.inSection ==>
       |st.root| > 0 && SectionLike(st.root[|st.root| - 1]) && ConfEntries(st.root[..|st.root| - 1]))
  }

  /** Every tree read_conf returns is one write_conf writes and reads back
      unchanged. */
  lemma {:induction false} ReadConfConformant(s: string)
    ensures ReadConf(s).Parsed? ==> Conformant(ReadConf(s).tree)
  {
    var lines := SplitLines(s);
    var st0 := ReadState([], false);
    RunKeepsInv(lines, st0, 1);
    match RunLines(lines, st0, 1)
    case Failed(_, _) =>
    case Running(st) => FinalConformant(st);
  }

  /** Reading, writing and reading again gives the tree read first. */
  lemma {:induction false} ReadThenWrite(s: string)
    requires ReadConf(s).Parsed?
    ensures var t := ReadConf(s).tree;
            WriteConf(t).Ok? && ReadConf(WriteConf(t).value) == Parsed(t)
  {
    ReadConfConformant(s);
    WriteThenRead(ReadConf(s).tree);
  }

  lemma {:induction false} RunKeepsInv(lines: seq<string>, st: ReadState, n: nat)
    requires Inv(st) && NoBreaks(lines)
    ensures RunLines(lines, st, n).Running? ==> Inv(RunLines(lines, st, n).st)
    decreases |lines|
  {
    if lines != [] {
      ReadLineKeepsInv(st, lines[0]);
      assert NoBreaks(lines[1..]) by {
        assert forall i :: 0 <= i < |lines| - 1 ==> lines[1..][i] == lines[i + 1];
      }
      match ReadLine(st, lines[0])
      case Err(_) =>
      case Ok(st') => RunKeepsInv(lines[1..], st', n + 1);
    }
  }

  /** At end of file an empty open section is dropped; what remains is in
      final form. */
  lemma {:induction false} FinalConformant(st: ReadState)
    requires Inv(st)
    ensures Conformant(PTree([], DropEmptySection(st)))
  {
    DropKeepsEntries(st);
  }

  lemma {:induction false} ReadLineKeepsInv(st: ReadState, raw: string)
    requires Inv(st) && '\n' !in raw
    ensures ReadLine(st, raw).Ok? ==> Inv(ReadLine(st, raw).value)
  {
    var l := ParseLine(Text.Trim(raw));
    ParsedLineOk(raw);
    match l
    case Skip =>
    case Bad(_) =>
    case Header(k) => OpenSectionKeepsInv(st, k);
    case Pair(k, v) => AddPairKeepsInv(st, k, v);
  }

  // ---------------------------------------------------------------------
  // Syntax: what a parsed line can contain

  /** Names and pairs taken from a line are trimmed and free of the
      characters that delimit them. */
  lemma {:induction false} ParsedLineOk(raw: string)
    requires '\n' !in raw
    ensures ParseLine(Text.Trim(raw)).Header? ==> SectionNameOk(ParseLine(Text.Trim(raw)).name)
    ensures ParseLine(Text.Trim(raw)).Pair? ==>
              KeyOk(ParseLine(Text.Trim(raw)).key) && ValueOk(ParseLine(Text.Trim(raw)).data)
  {
    var t := Text.Trim(raw);
    Text.TrimKeepsOut(raw, '\n');
    if t != [] && t[0] != '#' {
      if t[0] == '[' {
        match IndexOf(t, ']')
        case None =>
        case Some(e) => HeaderNameOk(t, e);
      } else {
        match IndexOf(t, '=')
        case None =>
        case Some(e) =>
          if e > 0 {
            PairPartsOk(t, e);
          }
      }
    }
  }

  lemma {:induction false} HeaderNameOk(t: string, e: nat)
    requires '\n' !in t && IndexOf(t, ']') == Some(e) && t != [] && t[0] == '['
    ensures SectionNameOk(Text.Trim(t[1..e]))
  {
    assert e >= 1;
    var u := t[1..e];
    assert u == t[..e][1..];
    SliceKeepsOut(t, 1, e, '\n');
    SliceKeepsOut(t[..e], 1, e, ']');
    Text.TrimKeepsOut(u, '\n');
    Text.TrimKeepsOut(u, ']');
  }

  lemma {:induction false} PairPartsOk(t: string, e: nat)
    requires '\n' !in t && Text.IsTrimmed(t) && IndexOf(t, '=') == Some(e) && e > 0
    requires t[0] != '#' && t[0] != '['
    ensures KeyOk(Text.Trim(t[..e])) && ValueOk(Text.Trim(t[e + 1..]))
  {
    var k := t[..e];
    SliceKeepsOut(t, 0, e, '\n');
    assert t[0..e] == k;
    Text.TrimKeepsOut(k, '\n');
    Text.TrimKeepsOut(k, '=');
    Text.TrimKeepsFirst(k);
    SliceKeepsOut(t, e + 1, |t|, '\n');
    assert t[e + 1..|t|] == t[e + 1..];
    Text.TrimKeepsOut(t[e + 1..], '\n');
  }

  lemma {:induction false} SliceKeepsOut(s: string, i: nat, j: nat, c: char)
    requires i <= j <= |s| && c !in s
    ensures c !in s[i..j]
  {
    forall k | 0 <= k < j - i
      ensures s[i..j][k] != c
    {
      assert s[i..j][k] == s[i + k];
    }
  }

  // ---------------------------------------------------------------------
  // State: the two kinds of line keep the invariant

  /** Dropping an empty open section leaves entries in final form. */
  lemma {:induction false} DropKeepsEntries(st: ReadState)
    requires Inv(st)
    ensures ConfEntries(DropEmptySection(st))
  {
    var root := st.root;
    if !st.inSection {
      assert DropEmptySection(st) == root;
    } else {
      var last := |root| - 1;
      var pre := root[..last];
      if root[last].1.children == [] {
        assert DropEmptySection(st) == pre;
      } else {
        assert DropEmptySection(st) == root;
        assert SectionEntry(root[last]);
        forall i | 0 <= i < last
          ensures root[i] == pre[i]
        {
        }
      }
    }
  }

  lemma {:induction false} OpenSectionKeepsInv(st: ReadState, k: string)
    requires Inv(st) && SectionNameOk(k)
    ensures OpenSection(st, k).Ok? ==> Inv(OpenSection(st, k).value)
  {
    if OpenSection(st, k).Ok? {
      var root := DropEmptySection(st);
      DropKeepsEntries(st);
      var root' := root + [(k, EmptyTree())];
      assert OpenSection(st, k).value == ReadState(root', true);
      assert root'[..|root|] == root;
      assert k !in Keys(root);
      forall i, j | 0 <= i < j < |root'|
        ensures root'[i].0 != root'[j].0
      {
        if j == |root| {
          assert root'[i] == root[i];
          assert Keys(root)[i] == root[i].0;
        } else {
          assert root'[i] == root[i] && root'[j] == root[j];
        }
      }
    }
  }

  lemma {:induction false} AddPairKeepsInv(st: ReadState, k: string, v: string)
    requires Inv(st) && KeyOk(k) && ValueOk(v)
    ensures AddPair(st, k, v).Ok? ==> Inv(AddPair(st, k, v).value)
  {
    if AddPair(st, k, v).Ok? {
      var root := st.root;
      var st' := AddPair(st, k, v).value;
      assert k !in Keys(Container(st));
      if st.inSection {
        var last := |root| - 1;
        var sec := root[last];
        var cs := sec.1.children;
        var cs' := cs + [(k, Leaf(v))];
        assert st'.root == root[last := (sec.0, sec.1.(children := cs'))];
        assert st'.root[..last] == root[..last];
        assert k !in Keys(cs);
        forall i, j | 0 <= i < j < |cs'|
          ensures cs'[i].0 != cs'[j].0
        {
          if j == |cs| {
            assert Keys(cs)[i] == cs[i].0;
          }
        }
        assert SectionBody(cs');
        forall i, j | 0 <= i < j < |st'.root|
          ensures st'.root[i].0 != st'.root[j].0
        {
          assert st'.root[i].0 == root[i].0 && st'.root[j].0 == root[j].0;
        }
      } else {
        var root' := root + [(k, Leaf(v))];
        assert st'.root == root';
        forall i, j | 0 <= i < j < |root'|
          ensures root'[i].0 != root'[j].0
        {
          if j == |root| {
            assert Keys(root)[i] == root[i].0;
          }
        }
      }
    }
  }
}
