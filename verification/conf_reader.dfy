/** The CONF (INI-like) reader for property trees
    (bonelab/boost/property_tree/conf_parser.hpp, read_conf).

    The stream is modelled as its whole text.  `getline` splits it at
    '\n'; each line is trimmed; comments start with '#'; "[name]" opens a
    section; every other line is "key = value".  Errors carry the
    message and the 1-based line number of read_conf's conf_parser_error. */
module ConfReader {
  import opened Wrappers
  import opened PropTree
  import Text

  datatype ReadOutcome = Parsed(tree: PTree) | ParseError(message: string, line: nat)

  // ---------------------------------------------------------------------
  // Lines

  /** The lines successive `getline` calls return until end of file: the
      text split at every '\n'.  A final '\n' yields a last, empty line. */
  function SplitLines(s: string): (ls: seq<string>)
    ensures |ls| >= 1
    ensures forall i :: 0 <= i < |ls| ==> '\n' !in ls[i]
    decreases |s|
  {
    match IndexOf(s, '\n')
      case None => [s]
      case Some(i) => [s[..i]] + SplitLines(s[i + 1..])
  }

  /** The text of a sequence of lines, each terminated by '\n'. */
  function Join(ls: seq<string>): string
  {
    if ls == [] then [] else ls[0] + "\n" + Join(ls[1..])
  }

  /** Splitting undoes joining, plus the empty line getline returns after
      the final '\n'. */
  lemma {:induction false} SplitJoin(ls: seq<string>)
    requires forall i :: 0 <= i < |ls| ==> '\n' !in ls[i]
    ensures SplitLines(Join(ls)) == ls + [""]
    decreases |ls|
  {
    if ls == [] {
      assert IndexOf([], '\n') == None;
    } else {
      calc {
        SplitLines(Join(ls));
      == { SplitLinesStep(ls[0], Join(ls[1..])); }
        [ls[0]] + SplitLines(Join(ls[1..]));
      == { SplitJoin(ls[1..]); }
        [ls[0]] + (ls[1..] + [""]);
      == { assert ls == [ls[0]] + ls[1..]; }
        ls + [""];
      }
    }
  }

  lemma {:induction false} SplitLinesStep(l: string, rest: string)
    requires '\n' !in l
    ensures SplitLines(l + "\n" + rest) == [l] + SplitLines(rest)
  {
    var x := l + "\n" + rest;
    IndexOfAfter(l, ['\n'] + rest, '\n');
    assert x == l + (['\n'] + rest);
    assert x[..|l|] == l;
    assert x[|l| + 1..] == rest;
  }

  // ---------------------------------------------------------------------
  // read_conf (conf_parser.hpp:65-146)

  /** The parser's state: the tree built so far, and whether a section is
      open (the open section is then the last entry of the root). */
  datatype ReadState = ReadState(root: seq<(string, PTree)>, inSection: bool)

  /** read_conf's `section` pointer is set only after a push_back. */
  predicate Consistent(st: ReadState)
  {
    st.inSection ==> |st.root| > 0
  }

  /** An open section that received no key is dropped again. */
  function DropEmptySection(st: ReadState): (root: seq<(string, PTree)>)
    ensures root == st.root || (|st.root| > 0 && root == st.root[..|st.root| - 1])
    ensures root != st.root <==> st.inSection && |st.root| > 0 && st.root[|st.root| - 1].1.children == []
  {
    if st.inSection && |st.root| > 0 && st.root[|st.root| - 1].1.children == [] then
      st.root[..|st.root| - 1]
    else st.root
  }

  /** What one trimmed line says. */
  datatype Line =
    | Skip                               // empty, or a '#' comment
    | Header(name: string)               // "[name]"
    | Pair(key: string, data: string)    // "key = data"
    | Bad(message: string)               // a format violation

  /** The syntax of a trimmed line: a '[' starts a header named by the
      trimmed text up to the first ']'; any other line is split at its
      first '=' into a trimmed key and a trimmed value. */
  function ParseLine(t: string): (l: Line)
    ensures l.Skip? <==> t == [] || t[0] == '#'
    ensures l.Header? ==> t[0] == '[' && ']' in t
    ensures l.Pair? ==> t[0] != '[' && t[0] != '=' && '=' in t
    ensures l.Bad? ==> l.message in {"unmatched '['", "'=' character not found in line", "key expected"}
  {
    if t == [] || t[0] == '#' then Skip
    else if t[0] == '[' then
      match IndexOf(t, ']')
        case None => Bad("unmatched '['")
        case Some(e) => Header(Text.Trim(t[1..e]))
    else
      match IndexOf(t, '=')
        case None => Bad("'=' character not found in line")
        case Some(e) =>
          if e == 0 then Bad("key expected")
          else Pair(Text.Trim(t[..e]), Text.Trim(t[e + 1..]))
  }

  /** What a line does to the tree being built. */
  function Apply(st: ReadState, l: Line): (r: Result<ReadState>)
    ensures Consistent(st) && r.Ok? ==> Consistent(r.value)
    ensures l.Skip? ==> r == Ok(st)
    ensures l.Bad? ==> r == Err(l.message)
  {
    match l
      case Skip => Ok(st)
      case Header(k) => OpenSection(st, k)
      case Pair(k, v) => AddPair(st, k, v)
      case Bad(m) => Err(m)
  }

  /** One line of the stream: trimmed, parsed and applied. */
  function ReadLine(st: ReadState, raw: string): (r: Result<ReadState>)
    ensures Consistent(st) && r.Ok? ==> Consistent(r.value)
  {
    Apply(st, ParseLine(Text.Trim(raw)))
  }

  /** "[name]": drop an empty open section, then push_back an empty
      section, refused when the root already has the name. */
  function OpenSection(st: ReadState, key: string): (r: Result<ReadState>)
    ensures r.Ok? <==> key !in Keys(DropEmptySection(st))
    ensures r.Err? ==> r.msg == "duplicate section name"
    ensures r.Ok? ==> r.value.inSection && r.value.root == DropEmptySection(st) + [(key, EmptyTree())]
  {
    var root := DropEmptySection(st);
    FindSpec(root, key);
    if Find(root, key).Some? then Err("duplicate section name")
    else Ok(ReadState(root + [(key, EmptyTree())], true))
  }

  /** push_back of a leaf into the container (the open section or the
      root), refused when the container already has the key. */
  function AddPair(st: ReadState, key: string, data: string): (r: Result<ReadState>)
    ensures r.Ok? ==> r.value.inSection == st.inSection
    ensures Consistent(st) && r.Ok? ==> Consistent(r.value)
    ensures r.Ok? ==> |r.value.root| == |st.root| + (if st.inSection && |st.root| > 0 then 0 else 1)
    ensures r.Err? <==> key in Keys(Container(st))
    ensures r.Err? ==> r.msg == "duplicate key name"
    ensures Consistent(st) && r.Ok? ==> Container(r.value) == Container(st) + [(key, Leaf(data))]
  {
    if st.inSection && |st.root| > 0 then
      var last := |st.root| - 1;
      var sec := st.root[last];
      FindSpec(sec.1.children, key);
      if Find(sec.1.children, key).Some? then Err("duplicate key name")
      else
        var sec' := (sec.0, sec.1.(children := sec.1.children + [(key, Leaf(data))]));
        Ok(st.(root := st.root[last := sec']))
    else
      FindSpec(st.root, key);
      if Find(st.root, key).Some? then Err("duplicate key name")
      else Ok(st.(root := st.root + [(key, Leaf(data))]))
  }

  /** The container key lines go to: the open section's children, or the
      root. */
  function Container(st: ReadState): seq<(string, PTree)>
  {
    if st.inSection && |st.root| > 0 then st.root[|st.root| - 1].1.children else st.root
  }

  datatype Run = Running(st: ReadState) | Failed(message: string, line: nat)

  /** Lines are read in order from line number n; the first error stops
      the parse with the number of the offending line. */
  function RunWith(step: (ReadState, string) -> Result<ReadState>,
                   lines: seq<string>, st: ReadState, n: nat): (r: Run)
    ensures r.Failed? ==> n <= r.line < n + |lines|
    decreases |lines|
  {
    if lines == [] then Running(st)
    else match step(st, lines[0])
      case Err(m) => Failed(m, n)
      case Ok(st') => RunWith(step, lines[1..], st', n + 1)
  }

  function RunLines(lines: seq<string>, st: ReadState, n: nat): (r: Run)
    ensures r.Failed? ==> n <= r.line < n + |lines|
  {
    RunWith(ReadLine, lines, st, n)
  }

  /** Reading a+b is reading a, then reading b from where a left off. */
  lemma {:induction false} RunWithAppend(step: (ReadState, string) -> Result<ReadState>,
                                         a: seq<string>, b: seq<string>, st: ReadState, n: nat)
    ensures RunWith(step, a, st, n).Failed? ==> RunWith(step, a + b, st, n) == RunWith(step, a, st, n)
    ensures RunWith(step, a, st, n).Running? ==>
              RunWith(step, a + b, st, n) == RunWith(step, b, RunWith(step, a, st, n).st, n + |a|)
    decreases |a|
  {
    if a == [] {
      assert a + b == b;
    } else {
      assert (a + b)[0] == a[0];
      assert (a + b)[1..] == a[1..] + b;
      match step(st, a[0])
      case Err(_) =>
      case Ok(st') => RunWithAppend(step, a[1..], b, st', n + 1);
    }
  }

  lemma {:induction false} RunLinesAppend(a: seq<string>, b: seq<string>, st: ReadState, n: nat)
    ensures RunLines(a, st, n).Failed? ==> RunLines(a + b, st, n) == RunLines(a, st, n)
    ensures RunLines(a, st, n).Running? ==>
              RunLines(a + b, st, n) == RunLines(b, RunLines(a, st, n).st, n + |a|)
  {
    RunWithAppend(ReadLine, a, b, st, n);
  }

  /** Two runs that succeed one after the other make one run. */
  lemma {:induction false} RunWithCompose(step: (ReadState, string) -> Result<ReadState>, a: seq<string>, b: seq<string>,
                       st0: ReadState, st1: ReadState, st2: ReadState, n: nat)
    requires RunWith(step, a, st0, n) == Running(st1)
    requires RunWith(step, b, st1, n + |a|) == Running(st2)
    ensures RunWith(step, a + b, st0, n) == Running(st2)
  {
    RunWithAppend(step, a, b, st0, n);
  }

  /** One line read on its own. */
  lemma {:induction false} RunWithOne(step: (ReadState, string) -> Result<ReadState>, l: string, st: ReadState, n: nat)
    ensures step(st, l).Ok? ==> RunWith(step, [l], st, n) == Running(step(st, l).value)
    ensures step(st, l).Err? ==> RunWith(step, [l], st, n) == Failed(step(st, l).msg, n)
  {
    assert [l][1..] == [];
  }

  /** Every state reached from a consistent one is consistent. */
  lemma {:induction false} RunLinesConsistent(lines: seq<string>, st: ReadState, n: nat)
    requires Consistent(st)
    ensures RunLines(lines, st, n).Running? ==> Consistent(RunLines(lines, st, n).st)
    decreases |lines|
  {
    if lines != [] {
      match ReadLine(st, lines[0])
      case Err(_) =>
      case Ok(st') => RunLinesConsistent(lines[1..], st', n + 1);
    }
  }

  /** read_conf(stream, pt): the parsed tree, or the first error. */
  function ReadConf(s: string): (r: ReadOutcome)
    ensures r.ParseError? ==> 1 <= r.line <= |SplitLines(s)|
  {
    match RunLines(SplitLines(s), ReadState([], false), 1)
      case Failed(m, n) => ParseError(m, n)
      case Running(st) => Parsed(PTree([], DropEmptySection(st)))
  }

  /** The destination tree is replaced only when the whole text parses:
      parsing fills a local tree that is swapped in at the end. */
  function ReadConfInto(s: string, pt: PTree): (r: (PTree, ReadOutcome))
    ensures r.1 == ReadConf(s)
    ensures r.1.ParseError? ==> r.0 == pt
    ensures r.1.Parsed? ==> r.0 == r.1.tree
  {
    var o := ReadConf(s);
    if o.Parsed? then (o.tree, o) else (pt, o)
  }

  // ---------------------------------------------------------------------
  // Examples

  /** How single lines parse: a pair, a comment, format violations. */
  lemma {:induction false} ParseLineExamples()
    ensures ParseLine("# note") == Skip
    ensures ParseLine("[s") == Bad("unmatched '['")
    ensures ParseLine("= 1") == Bad("key expected")
    ensures ParseLine("b") == Bad("'=' character not found in line")
  {
  }

  /** A line that is not a comment or header, with its first '=' at e,
      parses as the pair of its trimmed halves. */
  lemma {:induction false} ParsePairAt(t: string, e: nat, k: string, v: string)
    requires t != [] && t[0] != '#' && t[0] != '['
    requires IndexOf(t, '=') == Some(e) && e > 0
    requires Text.Trim(t[..e]) == k && Text.Trim(t[e + 1..]) == v
    ensures ParseLine(t) == Pair(k, v)
  {
  }

  lemma {:induction false} ParsePairExample()
    ensures ParseLine("b=2") == Pair("b", "2")
  {
    var t := "b=2";
    assert t[..1] == "b" && t[2..] == "2";
    assert IndexOf(t, '=') == Some(1);
    assert Text.Trim(t[..1]) == "b" by {
      TrimmedWord("b");
    }
    assert Text.Trim(t[2..]) == "2" by {
      TrimmedWord("2");
    }
    ParsePairAt(t, 1, "b", "2");
  }

  lemma {:induction false} ParseHeaderExample()
    ensures ParseLine("[s]") == Header("s")
  {
    var t := "[s]";
    assert IndexOf(t, ']') == Some(2);
    TrimmedWord("s");
    assert t[1..2] == "s";
  }

  lemma {:induction false} TrimmedWord(w: string)
    requires |w| == 1 && !Text.IsSpace(w[0])
    ensures Text.Trim(w) == w
  {
    assert w == [] + w + [];
    Text.TrimPadded([], w, []);
  }
}
