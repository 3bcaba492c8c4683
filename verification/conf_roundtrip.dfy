/** Writing a property tree in the CONF format and reading the text back
    (bonelab/boost/property_tree/conf_parser.hpp). */
module ConfRoundTrip {
  import opened Wrappers
  import opened PropTree
  import Text
  import opened ConfReader
  import opened ConfWriter

  /** Keys and values that survive a write and a read unchanged. */
  predicate KeyOk(k: string)
  {
    k != [] && Text.IsTrimmed(k) && '\n' !in k && '=' !in k && k[0] != '#' && k[0] != '['
  }

  predicate ValueOk(v: string)
  {
    Text.IsTrimmed(v) && '\n' !in v
  }

  predicate SectionNameOk(k: string)
  {
    Text.IsTrimmed(k) && '\n' !in k && ']' !in k
  }

  predicate LeafEntry(e: (string, PTree))
  {
    KeyOk(e.0) && e.1.children == [] && ValueOk(e.1.data)
  }

  predicate SectionBody(cs: seq<(string, PTree)>)
  {
    UniqueKeys(cs) && forall i :: 0 <= i < |cs| ==> LeafEntry(cs[i])
  }

  predicate SectionEntry(e: (string, PTree))
  {
    SectionNameOk(e.0) && e.1.data == [] && e.1.children != [] && SectionBody(e.1.children)
  }

  /** Root entries as the CONF format can express them: unique keys,
      leaves and non-empty sections, all leaves before the first section. */
  predicate ConfEntries(cs: seq<(string, PTree)>)
  {
    UniqueKeys(cs) &&
    (forall i :: 0 <= i < |cs| ==> LeafEntry(cs[i]) || SectionEntry(cs[i])) &&
    (forall i, j :: 0 <= i < j < |cs| && cs[i].1.children != [] ==> cs[j].1.children != [])
  }

  predicate Conformant(t: PTree)
  {
    t.data == [] && ConfEntries(t.children)
  }

  /** Whether a section has been opened: the last root entry is one. */
  function Started(root: seq<(string, PTree)>): bool
  {
    |root| > 0 && root[|root| - 1].1.children != []
  }

  predicate NoBreaks(ls: seq<string>)
  {
    forall i :: 0 <= i < |ls| ==> '\n' !in ls[i]
  }

  /** Writing a conformant tree and reading the text back gives the tree. */
  lemma {:induction false} WriteThenRead(t: PTree)
    requires Conformant(t)
    ensures WriteConf(t).Ok? && ReadConf(WriteConf(t).value) == Parsed(t)
  {
    var cs := t.children;
    assert [] + cs == cs;
    ReadLineReadsConf();
    ItemsRoundTrip(ReadLine, [], cs, 1);
    var ls := WriteItems(cs, true).value;
    WrittenLinesOk(cs, true);
    SplitJoin(ls);
    var st := ReadState(cs, Started(cs));
    BlankLine(st);
    RunWithOne(ReadLine, "", st, 1 + |ls|);
    RunWithCompose(ReadLine, ls, [""], ReadState([], false), st, st, 1);
  }

  /** What the round trip needs of a line reader: blank lines change
      nothing, a written pair line adds the pair, a written header opens
      the section. */
  ghost predicate ReadsConfLines(step: (ReadState, string) -> Result<ReadState>)
  {
    (forall st: ReadState :: step(st, "") == Ok(st)) &&
    (forall st: ReadState, k: string, v: string :: KeyOk(k) && ValueOk(v) ==>
       step(st, LeafLine(k, v)) == AddPair(st, k, v)) &&
    (forall st: ReadState, k: string :: SectionNameOk(k) ==>
       step(st, HeaderLine(k)) == OpenSection(st, k))
  }

  lemma {:induction false} ReadLineReadsConf()
    ensures ReadsConfLines(ReadLine)
  {
    forall st: ReadState
      ensures ReadLine(st, "") == Ok(st)
    {
      BlankLine(st);
    }
    forall st: ReadState, k: string, v: string | KeyOk(k) && ValueOk(v)
      ensures ReadLine(st, LeafLine(k, v)) == AddPair(st, k, v)
    {
      LeafLineRead(st, k, v);
    }
    forall st: ReadState, k: string | SectionNameOk(k)
      ensures ReadLine(st, HeaderLine(k)) == OpenSection(st, k)
    {
      HeaderLineRead(st, k);
    }
  }

  lemma {:induction false} BlankLine(st: ReadState)
    ensures ReadLine(st, "") == Ok(st)
  {
    Text.TrimPadded([], [], []);
  }

  /** A "key = value" line reads back as that pair. */
  lemma {:induction false} LeafLineRead(st: ReadState, k: string, v: string)
    requires KeyOk(k) && ValueOk(v)
    ensures ReadLine(st, LeafLine(k, v)) == AddPair(st, k, v)
  {
    calc {
      ReadLine(st, LeafLine(k, v));
      Apply(st, ParseLine(Text.Trim(LeafLine(k, v))));
    == { LeafLineParse(k, v); }
      Apply(st, Pair(k, v));
    }
  }

  /** Written as "key = value", a pair parses as itself. */
  lemma {:induction false} LeafLineParse(k: string, v: string)
    requires KeyOk(k) && ValueOk(v)
    ensures ParseLine(Text.Trim(LeafLine(k, v))) == Pair(k, v)
  {
    var t := KeyValueText(k, v);
    calc {
      ParseLine(Text.Trim(LeafLine(k, v)));
    == { LeafLineTrim(k, v); }
      ParseLine(t);
    == { LeafLineSplit(k, v); assert t[0] == k[0]; ParsePairAt(t, |k| + 1, k, v); }
      Pair(k, v);
    }
  }

  /** The trimmed form of a "key = value" line (an empty value leaves the
      '=' last). */
  function KeyValueText(k: string, v: string): string
  {
    if v == [] then k + " =" else k + " = " + v
  }

  lemma {:induction false} LeafLineTrim(k: string, v: string)
    requires KeyOk(k) && ValueOk(v)
    ensures Text.Trim(LeafLine(k, v)) == KeyValueText(k, v)
  {
    if v == [] {
      var t := k + " =";
      assert LeafLine(k, v) == [] + t + " ";
      Text.TrimPadded([], t, " ");
    } else {
      var t := k + " = " + v;
      assert t[|t| - 1] == v[|v| - 1];
      assert LeafLine(k, v) == [] + t + [];
      Text.TrimPadded([], t, []);
    }
  }

  lemma {:induction false} LeafLineSplit(k: string, v: string)
    requires KeyOk(k) && ValueOk(v)
    ensures IndexOf(KeyValueText(k, v), '=') == Some(|k| + 1)
    ensures Text.Trim(KeyValueText(k, v)[..|k| + 1]) == k
    ensures Text.Trim(KeyValueText(k, v)[|k| + 2..]) == v
  {
    var rest := if v == [] then [] else " " + v;
    KeyValueShape(k, v, rest);
    SplitAtEquals(k, rest);
    TrimKeyPart(k);
    TrimValuePart(v, rest);
  }

  lemma {:induction false} KeyValueShape(k: string, v: string, rest: string)
    requires rest == if v == [] then [] else " " + v
    ensures KeyValueText(k, v) == (k + " ") + (['='] + rest)
  {
  }

  lemma {:induction false} SplitAtEquals(k: string, rest: string)
    requires '=' !in k
    ensures IndexOf((k + " ") + (['='] + rest), '=') == Some(|k| + 1)
    ensures ((k + " ") + (['='] + rest))[..|k| + 1] == k + " "
    ensures ((k + " ") + (['='] + rest))[|k| + 2..] == rest
  {
    IndexOfAfter(k + " ", ['='] + rest, '=');
  }

  lemma {:induction false} TrimKeyPart(k: string)
    requires Text.IsTrimmed(k)
    ensures Text.Trim(k + " ") == k
  {
    assert k + " " == [] + k + " ";
    Text.TrimPadded([], k, " ");
  }

  lemma {:induction false} TrimValuePart(v: string, rest: string)
    requires Text.IsTrimmed(v) && rest == if v == [] then [] else " " + v
    ensures Text.Trim(rest) == v
  {
    if v == [] {
      Text.TrimPadded([], [], []);
    } else {
      assert rest == " " + v + [];
      Text.TrimPadded(" ", v, []);
    }
  }

  /** A "[name]" line opens a section of that name (after dropping an
      empty open section), unless the name is taken. */
  lemma {:induction false} HeaderLineRead(st: ReadState, k: string)
    requires SectionNameOk(k)
    ensures ReadLine(st, HeaderLine(k)) == OpenSection(st, k)
  {
    calc {
      ReadLine(st, HeaderLine(k));
      Apply(st, ParseLine(Text.Trim(HeaderLine(k))));
    == { HeaderParse(k); }
      Apply(st, Header(k));
    }
  }

  /** Written as "[name]", a section name parses as itself. */
  lemma {:induction false} HeaderParse(k: string)
    requires SectionNameOk(k)
    ensures ParseLine(Text.Trim(HeaderLine(k))) == Header(k)
  {
    var t := HeaderLine(k);
    calc {
      ParseLine(Text.Trim(t));
    == { HeaderTrim(k); }
      ParseLine(t);
    == { HeaderName(k); }
      Header(k);
    }
  }

  lemma {:induction false} HeaderTrim(k: string)
    ensures Text.Trim(HeaderLine(k)) == HeaderLine(k)
  {
    var t := HeaderLine(k);
    assert t == [] + t + [];
    Text.TrimPadded([], t, []);
  }

  lemma {:induction false} HeaderName(k: string)
    requires SectionNameOk(k)
    ensures IndexOf(HeaderLine(k), ']') == Some(|k| + 1)
    ensures Text.Trim(HeaderLine(k)[1..|k| + 1]) == k
  {
    var t := HeaderLine(k);
    assert t == ("[" + k) + "]";
    IndexOfAfter("[" + k, "]", ']');
    assert t[1..|k| + 1] == [] + k + [];
    Text.TrimPadded([], k, []);
  }

  /** The lines of a section body add its pairs to the open section. */
  lemma {:induction false} BodyRun(step: (ReadState, string) -> Result<ReadState>,
                                   prefix: seq<(string, PTree)>, k: string,
                                   done: seq<(string, PTree)>, todo: seq<(string, PTree)>, n: nat)
    requires ReadsConfLines(step) && SectionBody(done + todo)
    ensures WriteLeaves(todo).Ok?
    ensures RunWith(step, WriteLeaves(todo).value, ReadState(prefix + [(k, PTree([], done))], true), n)
            == Running(ReadState(prefix + [(k, PTree([], done + todo))], true))
    decreases |todo|
  {
    var all := done + todo;
    if todo == [] {
      assert done + todo == done;
    } else {
      var e := todo[0];
      assert all[|done|] == e;
      assert LeafEntry(e);
      var st := ReadState(prefix + [(k, PTree([], done))], true);
      var done' := done + [e];
      var st' := ReadState(prefix + [(k, PTree([], done'))], true);
      assert done' + todo[1..] == all;
      BodyRun(step, prefix, k, done', todo[1..], n + 1);
      var line := LeafLine(e.0, e.1.data);
      var rest := WriteLeaves(todo[1..]).value;
      assert WriteLeaves(todo).value == [line] + rest;
      assert step(st, line) == Ok(st') by {
        assert e.0 !in Keys(done) by {
          forall i | 0 <= i < |done|
            ensures done[i].0 != e.0
          {
            assert all[i] == done[i];
          }
        }
        assert e == (e.0, Leaf(e.1.data));
        assert st.root[|st.root| - 1 := (k, PTree([], done'))] == st'.root;
      }
      RunWithOne(step, line, st, n);
      RunWithCompose(step, [line], rest, st, st', ReadState(prefix + [(k, PTree([], all))], true), n);
    }
  }

  lemma {:induction false} NoBreaksAppend(a: seq<string>, b: seq<string>)
    ensures NoBreaks(a + b) <==> NoBreaks(a) && NoBreaks(b)
  {
    if NoBreaks(a + b) {
      forall i | 0 <= i < |b|
        ensures '\n' !in b[i]
      {
        assert (a + b)[|a| + i] == b[i];
      }
      forall i | 0 <= i < |a|
        ensures '\n' !in a[i]
      {
        assert (a + b)[i] == a[i];
      }
    }
    if NoBreaks(a) && NoBreaks(b) {
      forall i | 0 <= i < |a + b|
        ensures '\n' !in (a + b)[i]
      {
        if i >= |a| {
          assert (a + b)[i] == b[i - |a|];
        }
      }
    }
  }

  /** No written line contains a line break. */
  lemma {:induction false} WrittenLinesOk(cs: seq<(string, PTree)>, first: bool)
    requires ConfEntries(cs)
    ensures WriteItems(cs, first).Ok?
    ensures NoBreaks(WriteItems(cs, first).value)
    decreases |cs|
  {
    if cs != [] {
      assert ConfEntries(cs[1..]) by {
        assert forall i :: 0 <= i < |cs| - 1 ==> cs[1..][i] == cs[i + 1];
      }
      WrittenLinesOk(cs[1..], false);
      var rest := WriteItems(cs[1..], false).value;
      var e := cs[0];
      assert LeafEntry(e) || SectionEntry(e);
      assert HasDuplicateKeys(e.1.children) == false;
      if e.1.children == [] {
        assert WriteItems(cs, first).value == [LeafLine(e.0, e.1.data)] + rest;
        NoBreaksAppend([LeafLine(e.0, e.1.data)], rest);
      } else {
        var body := WriteLeaves(e.1.children).value;
        var head := (if first then [] else [""]) + [HeaderLine(e.0)];
        assert WriteItems(cs, first).value == head + body + rest;
        LeavesNoBreaks(e.1.children);
        NoBreaksAppend(head, body);
        NoBreaksAppend(head + body, rest);
      }
    }
  }

  lemma {:induction false} LeavesNoBreaks(cs: seq<(string, PTree)>)
    requires forall i :: 0 <= i < |cs| ==> LeafEntry(cs[i])
    ensures WriteLeaves(cs).Ok? && NoBreaks(WriteLeaves(cs).value)
    decreases |cs|
  {
    if cs != [] {
      assert forall i :: 0 <= i < |cs| - 1 ==> cs[1..][i] == cs[i + 1];
      LeavesNoBreaks(cs[1..]);
      NoBreaksAppend([LeafLine(cs[0].0, cs[0].1.data)], WriteLeaves(cs[1..]).value);
    }
  }

  /** Reading a section's lines appends the section to the root and
      leaves it open. */
  lemma {:induction false} SectionRun(step: (ReadState, string) -> Result<ReadState>,
                   prefix: seq<(string, PTree)>, e: (string, PTree), n: nat)
    requires ReadsConfLines(step) && SectionEntry(e) && e.0 !in Keys(prefix)
    ensures WriteLeaves(e.1.children).Ok?
    ensures RunWith(step, SectionHead(e.0, prefix == []) + WriteLeaves(e.1.children).value,
                    ReadState(prefix, Started(prefix)), n)
            == Running(ReadState(prefix + [e], true))
  {
    var head := SectionHead(e.0, prefix == []);
    var st0 := ReadState(prefix, Started(prefix));
    var st1 := ReadState(prefix + [(e.0, EmptyTree())], true);
    var st2 := ReadState(prefix + [e], true);
    assert WriteLeaves(e.1.children).Ok? &&
           RunWith(step, WriteLeaves(e.1.children).value, st1, n + |head|) == Running(st2) by {
      SectionBodyRun(step, prefix, e, n + |head|);
    }
    assert RunWith(step, head, st0, n) == Running(st1) by {
      HeadRun(step, prefix, e.0, n);
    }
    RunWithCompose(step, head, WriteLeaves(e.1.children).value, st0, st1, st2, n);
  }

  lemma {:induction false} SectionBodyRun(step: (ReadState, string) -> Result<ReadState>,
                       prefix: seq<(string, PTree)>, e: (string, PTree), n: nat)
    requires ReadsConfLines(step) && SectionEntry(e)
    ensures WriteLeaves(e.1.children).Ok?
    ensures RunWith(step, WriteLeaves(e.1.children).value, ReadState(prefix + [(e.0, EmptyTree())], true), n)
            == Running(ReadState(prefix + [e], true))
  {
    assert [] + e.1.children == e.1.children;
    BodyRun(step, prefix, e.0, [], e.1.children, n);
    assert PTree([], e.1.children) == e.1;
  }

  /** The optional blank line and the header open an empty section. */
  lemma {:induction false} HeadRun(step: (ReadState, string) -> Result<ReadState>,
                prefix: seq<(string, PTree)>, k: string, n: nat)
    requires ReadsConfLines(step) && SectionNameOk(k) && k !in Keys(prefix)
    ensures RunWith(step, SectionHead(k, prefix == []), ReadState(prefix, Started(prefix)), n)
            == Running(ReadState(prefix + [(k, EmptyTree())], true))
  {
    var st0 := ReadState(prefix, Started(prefix));
    var x: seq<string> := if prefix == [] then [] else [""];
    var h := HeaderLine(k);
    var st1 := ReadState(prefix + [(k, EmptyTree())], true);
    assert RunWith(step, x, st0, n) == Running(st0) by {
      if x != [] {
        RunWithOne(step, "", st0, n);
      }
    }
    assert RunWith(step, [h], st0, n + |x|) == Running(st1) by {
      assert DropEmptySection(st0) == prefix;
      RunWithOne(step, h, st0, n + |x|);
    }
    RunWithCompose(step, x, [h], st0, st0, st1, n);
  }

  /** Reading the written root entries, after the entries already read,
      rebuilds them: leaves at the root, sections left open in turn. */
  lemma {:induction false} ItemsRoundTrip(step: (ReadState, string) -> Result<ReadState>,
                                          prefix: seq<(string, PTree)>, cs: seq<(string, PTree)>, n: nat)
    requires ReadsConfLines(step) && ConfEntries(prefix + cs)
    ensures WriteItems(cs, prefix == []).Ok?
    ensures RunWith(step, WriteItems(cs, prefix == []).value, ReadState(prefix, Started(prefix)), n)
            == Running(ReadState(prefix + cs, Started(prefix + cs)))
    decreases |cs|
  {
    if cs == [] {
      assert prefix + cs == prefix;
    } else {
      var e := cs[0];
      assert (prefix + [e]) + cs[1..] == prefix + cs;
      if e.1.children == [] {
        ItemsRoundTrip(step, prefix + [e], cs[1..], n + 1);
        LeafItemRun(step, prefix, cs, n);
      } else {
        var m := |SectionHead(e.0, prefix == [])| + |e.1.children|;
        ItemsRoundTrip(step, prefix + [e], cs[1..], n + m);
        SectionItemRun(step, prefix, cs, n);
      }
    }
  }

  /** The next entry's key is new, and its children have no duplicate. */
  lemma {:induction false} NextEntry(prefix: seq<(string, PTree)>, cs: seq<(string, PTree)>)
    requires ConfEntries(prefix + cs) && cs != []
    ensures cs[0].0 !in Keys(prefix)
    ensures LeafEntry(cs[0]) || SectionEntry(cs[0])
    ensures !HasDuplicateKeys(cs[0].1.children)
    ensures cs[0].1.children == [] ==> !Started(prefix)
  {
    var all := prefix + cs;
    assert all[|prefix|] == cs[0];
    forall i | 0 <= i < |prefix|
      ensures prefix[i].0 != cs[0].0
    {
      assert all[i] == prefix[i];
    }
    if |prefix| > 0 {
      assert all[|prefix| - 1] == prefix[|prefix| - 1];
    }
  }

  /** One leaf entry: its line adds it at the root, then the rest follows. */
  lemma {:induction false} LeafItemRun(step: (ReadState, string) -> Result<ReadState>,
                    prefix: seq<(string, PTree)>, cs: seq<(string, PTree)>, n: nat)
    requires ReadsConfLines(step) && ConfEntries(prefix + cs) && cs != [] && cs[0].1.children == []
    requires WriteItems(cs[1..], false).Ok?
    requires RunWith(step, WriteItems(cs[1..], false).value, ReadState(prefix + [cs[0]], false), n + 1)
             == Running(ReadState(prefix + cs, Started(prefix + cs)))
    ensures WriteItems(cs, prefix == []).Ok?
    ensures RunWith(step, WriteItems(cs, prefix == []).value, ReadState(prefix, Started(prefix)), n)
            == Running(ReadState(prefix + cs, Started(prefix + cs)))
  {
    var e := cs[0];
    NextEntry(prefix, cs);
    var line := LeafLine(e.0, e.1.data);
    var st0 := ReadState(prefix, false);
    var st1 := ReadState(prefix + [e], false);
    assert step(st0, line) == Ok(st1) by {
      assert e == (e.0, Leaf(e.1.data));
    }
    RunWithOne(step, line, st0, n);
    RunWithCompose(step, [line], WriteItems(cs[1..], false).value, st0, st1,
                   ReadState(prefix + cs, Started(prefix + cs)), n);
  }

  /** One section entry: its lines add it and leave it open, then the rest
      follows. */
  lemma {:induction false} SectionItemRun(step: (ReadState, string) -> Result<ReadState>,
                       prefix: seq<(string, PTree)>, cs: seq<(string, PTree)>, n: nat)
    requires ReadsConfLines(step) && ConfEntries(prefix + cs) && cs != [] && cs[0].1.children != []
    requires WriteItems(cs[1..], false).Ok?
    requires RunWith(step, WriteItems(cs[1..], false).value, ReadState(prefix + [cs[0]], true),
                     n + |SectionHead(cs[0].0, prefix == [])| + |cs[0].1.children|)
             == Running(ReadState(prefix + cs, Started(prefix + cs)))
    ensures WriteItems(cs, prefix == []).Ok?
    ensures RunWith(step, WriteItems(cs, prefix == []).value, ReadState(prefix, Started(prefix)), n)
            == Running(ReadState(prefix + cs, Started(prefix + cs)))
  {
    var e := cs[0];
    NextEntry(prefix, cs);
    SectionRun(step, prefix, e, n);
    var lines := SectionHead(e.0, prefix == []) + WriteLeaves(e.1.children).value;
    RunWithCompose(step, lines, WriteItems(cs[1..], false).value, ReadState(prefix, Started(prefix)),
                   ReadState(prefix + [e], true), ReadState(prefix + cs, Started(prefix + cs)), n);
  }
}
