/** Typed access to the reconstruction configuration tree
    (source/ReconConfiguration.cpp:485-546).

    The configuration is a two-level property tree: sections at the top,
    keys inside them.  Reading a typed value goes through the ptree stream
    translator: the node's text is extracted with `>>`, only whitespace may
    follow, and a failed extraction gives no value.  `Die` becomes `Err`
    with the message the program prints. */
module ReconParams {
  import opened Wrappers
  import opened PropTree
  import Text
  import TupleText
  import Tuple

  /** A configuration key "Section.Name". */
  datatype Key = Key(section: string, name: string)

  function KeyPath(k: Key): seq<string>
  {
    [k.section, k.name]
  }

  function KeyText(k: Key): string
  {
    k.section + "." + k.name
  }

  /** The dotted text of a key denotes its two-step path. */
  lemma {:induction false} KeyTextPath(k: Key)
    requires '.' !in k.section && '.' !in k.name && k.name != []
    ensures SplitPath(KeyText(k)) == KeyPath(k)
  {
    SplitPathStep(k.section, k.name);
  }

  /** get_optional<std::string>(key): the text of the node, if it exists. */
  function Lookup(t: PTree, k: Key): Option<string>
  {
    Get(t, KeyPath(k))
  }

  predicate Has(t: PTree, k: Key)
  {
    Lookup(t, k).Some?
  }

  /** get_optional<T>(key): the node's text translated to T. */
  function TypedLookup<T>(t: PTree, k: Key, parse: string -> Option<T>): Option<T>
  {
    match Lookup(t, k)
    case None => None
    case Some(s) => parse(s)
  }

  /** A key's value is decided by its section's node alone. */
  lemma {:induction false} LookupBySection(t: PTree, u: PTree, k: Key)
    requires Child(t, k.section) == Child(u, k.section)
    ensures Lookup(t, k) == Lookup(u, k)
  {
    assert KeyPath(k)[1..] == [k.name];
    assert KeyPath(k)[1..][1..] == [];
  }

  // ---------------------------------------------------------------------
  // How the validator may change the tree

  /** Every key outside ks reads the same in u as in t (present with the
      same text, or absent in both). */
  ghost predicate Unchanged(t: PTree, u: PTree, ks: set<Key>)
  {
    forall k :: k !in ks ==> Lookup(u, k) == Lookup(t, k)
  }

  /** Only the section s may differ between t and u. */
  ghost predicate OnlySection(t: PTree, u: PTree, s: string)
  {
    forall k :: k != s ==> Child(u, k) == Child(t, k)
  }

  /** put(key, v) sets that key and no other, inside its own section. */
  lemma {:induction false} PutKey(t: PTree, k: Key, v: string)
    ensures Lookup(Put(t, KeyPath(k), v), k) == Some(v)
    ensures Unchanged(t, Put(t, KeyPath(k), v), {k})
    ensures OnlySection(t, Put(t, KeyPath(k), v), k.section)
  {
    GetPutSame(t, KeyPath(k), v);
    forall k' | k' !in {k} ensures Lookup(Put(t, KeyPath(k), v), k') == Lookup(t, k') {
      PutOtherKey(t, k, v, k');
    }
    forall s | s != k.section ensures Child(Put(t, KeyPath(k), v), s) == Child(t, s) {
      ChildPutOther(t, KeyPath(k), v, s);
    }
  }

  lemma {:induction false} PutOtherKey(t: PTree, k: Key, v: string, k': Key)
    requires k' != k
    ensures Lookup(Put(t, KeyPath(k), v), k') == Lookup(t, k')
  {
    assert KeyPath(k)[..2] == KeyPath(k) != KeyPath(k');
    GetPutOther(t, KeyPath(k), v, KeyPath(k'));
  }

  /** Keys outside the changed set keep their text. */
  lemma {:induction false} UnchangedKeeps(t: PTree, u: PTree, ks: set<Key>, k: Key)
    requires Unchanged(t, u, ks) && k !in ks
    ensures Lookup(u, k) == Lookup(t, k)
  {
  }

  /** Changes compose: two steps change at most a set holding both steps'
      keys, and both stay inside one section. */
  lemma {:induction false} UnchangedTrans(t: PTree, u: PTree, w: PTree, ks1: set<Key>, ks2: set<Key>, ks: set<Key>, s: string)
    requires Unchanged(t, u, ks1) && Unchanged(u, w, ks2) && ks1 <= ks && ks2 <= ks
    requires OnlySection(t, u, s) && OnlySection(u, w, s)
    ensures Unchanged(t, w, ks) && OnlySection(t, w, s)
  {
  }

  /** Changes compose across sections too. */
  lemma {:induction false} UnchangedThen(t: PTree, u: PTree, w: PTree, ks1: set<Key>, ks2: set<Key>, ks: set<Key>)
    requires Unchanged(t, u, ks1) && Unchanged(u, w, ks2) && ks1 <= ks && ks2 <= ks
    ensures Unchanged(t, w, ks)
  {
  }

  /** A step confined to section x leaves every other section alone. */
  lemma {:induction false} OtherSection(t: PTree, u: PTree, x: string, s: string)
    requires OnlySection(t, u, x) && s != x
    ensures Child(u, s) == Child(t, s)
  {
  }

  // ---------------------------------------------------------------------
  // Translators

  function ParseString(s: string): Option<string>
  {
    Some(s)
  }

  function ShowString(s: string): string
  {
    s
  }

  const MinInt32: int := -0x8000_0000
  const MaxInt32: int := 0x7FFF_FFFF
  const MinInt64: int := -0x8000_0000_0000_0000
  const MaxInt64: int := 0x7FFF_FFFF_FFFF_FFFF

  /** Extraction of an `int`: a value outside 32 bits sets the failbit. */
  function ParseInt32(s: string): (r: Option<int>)
    ensures r.Some? <==> Text.ParseInt(s).Some? && MinInt32 <= Text.ParseInt(s).value <= MaxInt32
    ensures r.Some? ==> r == Text.ParseInt(s)
  {
    match Text.ParseInt(s)
    case None => None
    case Some(v) => if MinInt32 <= v <= MaxInt32 then Some(v) else None
  }

  /** Extraction of one int64_t element of a tuple. */
  function ReadInt64(s: string): (r: Option<(int, string)>)
    ensures r.Some? ==> MinInt64 <= r.value.0 <= MaxInt64 && r == Text.ReadInt(s)
  {
    match Text.ReadInt(s)
    case None => None
    case Some((v, rest)) => if MinInt64 <= v <= MaxInt64 then Some((v, rest)) else None
  }

  /** The tuple reader as written reaches `bonelab_assert(match_bracket)`
      (bonelab/Tuple.hpp:512) on this text.  The exception it throws is not
      caught by the translator. */
  predicate TupleAsserts<T>(n: nat, elem: TupleText.Reader<T>, s: string)
    requires n >= 1
  {
    TupleText.ReadAsWritten(n, elem, s) == TupleText.AssertionFailure
  }

  /** A tuple of n elements through the translator: the tuple must be
      followed by nothing but whitespace.  Text on which the reader asserts
      gives no value here; the assertion is reported by RequireTuple and
      OptionalTuple. */
  function ParseTuple<T>(n: nat, elem: TupleText.Reader<T>, s: string): (r: Option<seq<T>>)
    requires n >= 1
    ensures r.Some? ==> |r.value| == n
    ensures r.Some? <==> TupleText.ReadAsWritten(n, elem, s).Parsed? &&
                         Text.SkipSpace(TupleText.ReadAsWritten(n, elem, s).rest) == []
    ensures TupleAsserts(n, elem, s) ==> r.None?
  {
    match TupleText.ReadAsWritten(n, elem, s)
    case Parsed(t, rest) => if Text.SkipSpace(rest) == [] then Some(t) else None
    case _ => None
  }

  function ParseIndexPair(s: string): (r: Option<seq<int>>)
    ensures r.Some? ==> |r.value| == 2
    ensures IndexPairAsserts(s) ==> r.None?
  {
    ParseTuple(2, ReadInt64, s)
  }

  function ParseIndexTriple(s: string): (r: Option<seq<int>>)
    ensures r.Some? ==> |r.value| == 3
    ensures IndexTripleAsserts(s) ==> r.None?
  {
    ParseTuple(3, ReadInt64, s)
  }

  function ParseRealPair(s: string): (r: Option<seq<real>>)
    ensures r.Some? ==> |r.value| == 2
    ensures RealPairAsserts(s) ==> r.None?
  {
    ParseTuple(2, Text.ReadReal, s)
  }

  function ParseRealTriple(s: string): (r: Option<seq<real>>)
    ensures r.Some? ==> |r.value| == 3
    ensures RealTripleAsserts(s) ==> r.None?
  {
    ParseTuple(3, Text.ReadReal, s)
  }

  predicate IndexPairAsserts(s: string)
  {
    TupleAsserts(2, ReadInt64, s)
  }

  predicate IndexTripleAsserts(s: string)
  {
    TupleAsserts(3, ReadInt64, s)
  }

  predicate RealPairAsserts(s: string)
  {
    TupleAsserts(2, Text.ReadReal, s)
  }

  predicate RealTripleAsserts(s: string)
  {
    TupleAsserts(3, Text.ReadReal, s)
  }

  /** Two integers separated by a comma, the second followed by a character
      that neither continues it nor separates: the unbracketed reader
      asserts. */
  lemma {:induction false} IndexPairTrailingText(a: int, b: int, junk: char)
    requires MinInt64 <= a <= MaxInt64 && MinInt64 <= b <= MaxInt64
    requires junk != ' ' && junk != ',' && !Text.IsDigit(junk)
    ensures IndexPairAsserts(Text.IntToString(a) + "," + Text.IntToString(b) + [junk])
    ensures ParseIndexPair(Text.IntToString(a) + "," + Text.IntToString(b) + [junk]).None?
  {
    var s2 := Text.IntToString(b) + [junk];
    var s1 := Text.IntToString(a) + ("," + s2);
    assert Text.IntToString(a) + "," + Text.IntToString(b) + [junk] == s1;
    Text.ReadIntRoundTrip(a, "," + s2);
    Text.ReadIntRoundTrip(b, [junk]);
    TupleText.UnbracketedStart(2, ReadInt64, s1);
    TupleText.ReadElementsStep(2, ReadInt64, None, s1, [], a, s2);
    assert [] + [a] == [a];
    TupleText.ReadElementsUnbracketedLast(2, ReadInt64, s2, [a], b, [junk]);
  }

  /** The text "100,200x" read as a pair of indices. */
  lemma {:induction false} TrailingTextExample()
    ensures Text.IntToString(100) + "," + Text.IntToString(200) + "x" == "100,200x"
    ensures IndexPairAsserts(Text.IntToString(100) + "," + Text.IntToString(200) + "x")
  {
    HundredsText(1);
    HundredsText(2);
    JoinedText(Text.IntToString(100), Text.IntToString(200));
    IndexPairTrailingText(100, 200, 'x');
  }

  lemma {:induction false} JoinedText(a: string, b: string)
    requires a == ['1', '0', '0'] && b == ['2', '0', '0']
    ensures a + "," + b + "x" == "100,200x"
  {
  }

  /** A digit followed by two zeros prints as those three characters. */
  lemma {:induction false} HundredsText(d: int)
    requires 1 <= d < 10
    ensures Text.IntToString(100 * d) == [('0' as int + d) as char, '0', '0']
  {
    assert Text.NatToString(10 * d) == Text.NatToString(d) + [Text.DigitChar(0)];
    assert Text.NatToString(100 * d) == Text.NatToString(10 * d) + [Text.DigitChar(0)];
  }

  // ---------------------------------------------------------------------
  // RequireParameter / OptionalParameter (ReconConfiguration.cpp:485-516)

  function MissingMessage(k: Key): string
  {
    "Missing required parameter " + KeyText(k)
  }

  function ParseErrorMessage(k: Key): string
  {
    "Error parsing configuration parameter " + KeyText(k)
  }

  /** RequireParameter<T>(key): dies when the key is missing or its text
      does not translate to T. */
  function RequireParameter<T>(t: PTree, k: Key, parse: string -> Option<T>): (r: Result<T>)
    ensures !Has(t, k) ==> r == Err(MissingMessage(k))
    ensures Has(t, k) && parse(Lookup(t, k).value).None? ==> r == Err(ParseErrorMessage(k))
    ensures r.Ok? <==> TypedLookup(t, k, parse).Some?
    ensures r.Ok? ==> TypedLookup(t, k, parse) == Some(r.value)
  {
    match Lookup(t, k)
    case None => Err(MissingMessage(k))
    case Some(s) =>
      match parse(s)
      case None => Err(ParseErrorMessage(k))
      case Some(v) => Ok(v)
  }

  /** OptionalParameter<T>(key, def): an absent key receives the default's
      text and the default is returned; a present key must translate to T.
      No other key changes. */
  function OptionalParameter<T>(t: PTree, k: Key, def: T, show: T -> string, parse: string -> Option<T>)
    : (r: Result<(PTree, T)>)
    ensures !Has(t, k) ==> r.Ok? && r.value.1 == def && Lookup(r.value.0, k) == Some(show(def))
    ensures Has(t, k) ==> (r.Ok? <==> TypedLookup(t, k, parse).Some?)
    ensures Has(t, k) && r.Ok? ==> r.value == (t, TypedLookup(t, k, parse).value)
    ensures r.Err? ==> r.msg == ParseErrorMessage(k)
    ensures r.Ok? ==> Has(r.value.0, k)
    ensures r.Ok? ==> Unchanged(t, r.value.0, {k}) && OnlySection(t, r.value.0, k.section)
  {
    match Lookup(t, k)
    case None =>
      PutKey(t, k, show(def));
      Ok((Put(t, KeyPath(k), show(def)), def))
    case Some(s) =>
      match parse(s)
      case None => Err(ParseErrorMessage(k))
      case Some(v) => Ok((t, v))
  }

  /** RequireParameter for a tuple: the reader's assertion escapes from the
      translator before a failed extraction could be reported. */
  function RequireTuple<T>(t: PTree, k: Key, asserts: string -> bool, parse: string -> Option<T>): (r: Result<T>)
    ensures !Has(t, k) ==> r == Err(MissingMessage(k))
    ensures Has(t, k) && asserts(Lookup(t, k).value) ==> r == Err(AssertionMessage)
    ensures Has(t, k) && !asserts(Lookup(t, k).value) && parse(Lookup(t, k).value).None? ==>
              r == Err(ParseErrorMessage(k))
    ensures r.Ok? <==> TypedLookup(t, k, parse).Some? && !asserts(Lookup(t, k).value)
    ensures r.Ok? ==> TypedLookup(t, k, parse) == Some(r.value)
  {
    if Has(t, k) && asserts(Lookup(t, k).value) then Err(AssertionMessage)
    else RequireParameter(t, k, parse)
  }

  /** OptionalParameter for a tuple, with the reader's assertion. */
  function OptionalTuple<T>(t: PTree, k: Key, def: T, show: T -> string, asserts: string -> bool,
                            parse: string -> Option<T>)
    : (r: Result<(PTree, T)>)
    ensures !Has(t, k) ==> r.Ok? && r.value.1 == def && Lookup(r.value.0, k) == Some(show(def))
    ensures Has(t, k) && asserts(Lookup(t, k).value) ==> r == Err(AssertionMessage)
    ensures Has(t, k) ==> (r.Ok? <==> TypedLookup(t, k, parse).Some? && !asserts(Lookup(t, k).value))
    ensures Has(t, k) && r.Ok? ==> r.value == (t, TypedLookup(t, k, parse).value)
    ensures r.Err? ==> r.msg == ParseErrorMessage(k) || r.msg == AssertionMessage
    ensures r.Ok? ==> Has(r.value.0, k)
    ensures r.Ok? ==> Unchanged(t, r.value.0, {k}) && OnlySection(t, r.value.0, k.section)
  {
    if Has(t, k) && asserts(Lookup(t, k).value) then Err(AssertionMessage)
    else OptionalParameter(t, k, def, show, parse)
  }

  /** Once OptionalParameter has run, the key is there to be required, and
      running it again changes nothing, provided the default's text reads
      back as the default. */
  lemma {:induction false} OptionalThenRequire<T>(t: PTree, k: Key, def: T, show: T -> string, parse: string -> Option<T>)
    requires parse(show(def)) == Some(def)
    requires OptionalParameter(t, k, def, show, parse).Ok?
    ensures var (u, x) := OptionalParameter(t, k, def, show, parse).value;
            RequireParameter(u, k, parse) == Ok(x) &&
            OptionalParameter(u, k, def, show, parse) == Ok((u, x))
  {
  }

  /** Integer defaults read back, so they satisfy the condition above. */
  lemma {:induction false} IntDefaultsReadBack(def: int)
    requires MinInt32 <= def <= MaxInt32
    ensures ParseInt32(Text.IntToString(def)) == Some(def)
  {
    Text.ParseIntRoundTrip(def);
  }

  // ---------------------------------------------------------------------
  // CheckForUnknown (ReconConfiguration.cpp:518-546)

  predicate AllKnown(cs: seq<(string, PTree)>, valid: seq<string>)
  {
    forall i :: 0 <= i < |cs| ==> cs[i].0 in valid
  }

  function UnknownMessage(section: Option<string>, key: string): string
  {
    match section
    case Some(s) => "Unrecognized key in configuration: " + s + "." + key
    case None => "Unrecognized section in configuration: " + key
  }

  /** The position of the first child whose key is not in the whitelist
      (|cs| when there is none). */
  function FirstUnknown(cs: seq<(string, PTree)>, valid: seq<string>): (i: nat)
    ensures i <= |cs| && AllKnown(cs[..i], valid)
    ensures i < |cs| ==> cs[i].0 !in valid
    decreases |cs|
  {
    if cs == [] || cs[0].0 !in valid then 0
    else
      var j := FirstUnknown(cs[1..], valid);
      assert cs[..j + 1] == [cs[0]] + cs[1..][..j];
      j + 1
  }

  /** Dies on the first child whose key is not in the whitelist. */
  function CheckForUnknown(cs: seq<(string, PTree)>, section: Option<string>, valid: seq<string>)
    : (r: Result<()>)
    ensures r.Ok? <==> AllKnown(cs, valid)
    ensures r.Err? ==> exists i :: 0 <= i < |cs| && cs[i].0 !in valid &&
                                   AllKnown(cs[..i], valid) &&
                                   r.msg == UnknownMessage(section, cs[i].0)
  {
    var i := FirstUnknown(cs, valid);
    if i == |cs| then
      assert cs[..i] == cs;
      Ok(())
    else Err(UnknownMessage(section, cs[i].0))
  }

  /** The keys of a section, if it is present (get_child_optional). */
  predicate SectionKnown(t: PTree, s: string, valid: seq<string>)
  {
    Child(t, s).Some? ==> AllKnown(Child(t, s).value.children, valid)
  }

  function CheckSection(t: PTree, s: string, valid: seq<string>): (r: Result<()>)
    ensures r.Ok? <==> SectionKnown(t, s, valid)
  {
    match Child(t, s)
    case None => Ok(())
    case Some(c) => CheckForUnknown(c.children, Some(s), valid)
  }

  /** Text of a tuple default written with put (operator<< of Tuple). */
  function ShowIndexTuple(t: seq<int>): string
  {
    if |t| == 0 then "" else TupleText.Show(Text.IntToString, t)
  }
}
