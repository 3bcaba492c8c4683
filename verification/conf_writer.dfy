/** The CONF writer for property trees
    (bonelab/boost/property_tree/conf_parser.hpp, write_conf). */
module ConfWriter {
  import opened Wrappers
  import opened PropTree
  import ConfReader

  // ---------------------------------------------------------------------
  // write_conf (conf_parser.hpp:177-266)

  /** detail::check_dupes: some key occurs twice on one level. */
  function HasDuplicateKeys(cs: seq<(string, PTree)>): (r: bool)
    ensures r <==> !UniqueKeys(cs)
    decreases |cs|
  {
    if cs == [] then false
    else
      var dup := cs[0].0 in Keys(cs[1..]);
      var rest := HasDuplicateKeys(cs[1..]);
      if dup then
        var j :| 0 <= j < |cs| - 1 && Keys(cs[1..])[j] == cs[0].0;
        assert cs[0].0 == cs[j + 1].0;
        true
      else if rest then
        var i, j :| 0 <= i < j < |cs| - 1 && cs[1..][i].0 == cs[1..][j].0;
        assert cs[i + 1].0 == cs[j + 1].0;
        true
      else
        assert forall i, j :: 1 <= i < j < |cs| ==> cs[i].0 == cs[1..][i - 1].0 && cs[j].0 == cs[1..][j - 1].0;
        assert forall j :: 1 <= j < |cs| ==> cs[j].0 == Keys(cs[1..])[j - 1];
        false
  }

  function LeafLine(k: string, v: string): string
  {
    k + " = " + v
  }

  function HeaderLine(k: string): string
  {
    "[" + k + "]"
  }

  /** The lines that open a section: a blank line, unless the header is
      the first thing written, then "[name]". */
  function SectionHead(k: string, first: bool): (ls: seq<string>)
    ensures |ls| == (if first then 1 else 2) && ls[|ls| - 1] == HeaderLine(k)
  {
    (if first then [] else [""]) + [HeaderLine(k)]
  }

  /** What write_conf accepts: no data on the root, no duplicate key on
      any level, no node with both data and children, depth at most two. */
  predicate EntryWritable(e: (string, PTree))
  {
    UniqueKeys(e.1.children) &&
    (e.1.children != [] ==>
       e.1.data == [] && forall i :: 0 <= i < |e.1.children| ==> e.1.children[i].1.children == [])
  }

  predicate Writable(t: PTree)
  {
    t.data == [] && UniqueKeys(t.children) &&
    forall i :: 0 <= i < |t.children| ==> EntryWritable(t.children[i])
  }

  /** The "key = value" lines of a section; a grandchild with children of
      its own is too deep. */
  function WriteLeaves(cs: seq<(string, PTree)>): (r: Result<seq<string>>)
    ensures r.Ok? <==> forall i :: 0 <= i < |cs| ==> cs[i].1.children == []
    ensures r.Err? ==> r.msg == "ptree is too deep"
    ensures r.Ok? ==> |r.value| == |cs|
    decreases |cs|
  {
    if cs == [] then Ok([])
    else if cs[0].1.children != [] then Err("ptree is too deep")
    else
      var rest :- WriteLeaves(cs[1..]);
      Ok([LeafLine(cs[0].0, cs[0].1.data)] + rest)
  }

  /** The root's entries in order: a leaf is one "key = value" line; a
      section is "[name]" and its lines, after a blank line unless it is
      the very first item written. */
  function WriteItems(cs: seq<(string, PTree)>, firstHeader: bool): (r: Result<seq<string>>)
    ensures r.Ok? <==> forall i :: 0 <= i < |cs| ==> EntryWritable(cs[i])
    ensures r.Err? ==> r.msg in {"duplicate key", "mixed data and children", "ptree is too deep"}
    decreases |cs|
  {
    if cs == [] then Ok([])
    else
      var k, c := cs[0].0, cs[0].1;
      if HasDuplicateKeys(c.children) then Err("duplicate key")
      else if c.children == [] then
        var rest :- WriteItems(cs[1..], false);
        Ok([LeafLine(k, c.data)] + rest)
      else if c.data != [] then Err("mixed data and children")
      else
        var body :- WriteLeaves(c.children);
        var rest :- WriteItems(cs[1..], false);
        Ok(SectionHead(k, firstHeader) + body + rest)
  }

  /** write_conf(stream, pt): the text written, or the error thrown. */
  function WriteLines(t: PTree): (r: Result<seq<string>>)
    ensures r.Ok? <==> Writable(t)
    ensures t.data != [] ==> r == Err("ptree has data on root")
  {
    if t.data != [] then Err("ptree has data on root")
    else if HasDuplicateKeys(t.children) then Err("duplicate key")
    else WriteItems(t.children, true)
  }

  function WriteConf(t: PTree): (r: Result<string>)
    ensures r.Ok? <==> Writable(t)
  {
    var ls :- WriteLines(t);
    Ok(ConfReader.Join(ls))
  }

}
