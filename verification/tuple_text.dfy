/** Text form of tuples: `operator<<` and `operator>>` (bonelab/Tuple.hpp:384-535).

    The element type is a parameter: `show` is its `operator<<` and `elem`
    its `operator>>`, which returns the value and the unread rest of the
    input (an empty rest meaning the stream reached end of file), or None
    when it sets the failbit. */
module TupleText {
  import opened Wrappers
  import opened Text

  type Reader<T> = string -> Option<(T, string)>

  /** Outcome of `s >> t`: the tuple and the unread input; the failbit; or
      the exception thrown by the failed `bonelab_assert(match_bracket)`. */
  datatype TupleRead<T> = Parsed(t: seq<T>, rest: string) | Failbit | AssertionFailure

  /** operator<<: "(" t0 ("," ti)* ")". */
  function Show<T>(show: T -> string, t: seq<T>): (r: string)
    requires |t| >= 1
    ensures |r| >= 2 && r[0] == '(' && r[|r| - 1] == ')'
  {
    "(" + show(t[0]) + ShowRest(show, t[1..]) + ")"
  }

  function ShowRest<T>(show: T -> string, t: seq<T>): string
  {
    if t == [] then "" else "," + show(t[0]) + ShowRest(show, t[1..])
  }

  /** The loop that skips the space character only (not other whitespace). */
  function SkipBlanks(s: string): (r: string)
    ensures |r| <= |s| && r == s[|s| - |r|..]
    ensures r == [] || r[0] != ' '
  {
    if s != [] && s[0] == ' ' then SkipBlanks(s[1..]) else s
  }

  /** operator>> as written.  Leading blanks are skipped; an optional '(' or
      '[' must be closed by ')' or ']' respectively.  Elements are separated
      by blanks and an optional comma.  Reaching end of file is a failure
      except directly after the last element of an unbracketed tuple. */
  function ReadAsWritten<T>(n: nat, elem: Reader<T>, s: string): (r: TupleRead<T>)
    requires n >= 1
    ensures r.Parsed? ==> |r.t| == n
  {
    var s1 := SkipBlanks(s);
    if s1 == [] then Failbit
    else if s1[0] == '(' || s1[0] == '[' then
      var close := if s1[0] == '(' then ')' else ']';
      var s2 := SkipBlanks(s1[1..]);
      if s2 == [] then Failbit else ReadElements(n, elem, Some(close), s2, [])
    else
      ReadElements(n, elem, None, s1, [])
  }

  /** The element loop.  `input` starts with the character read ahead and put
      back (`unget`) before each element is extracted. */
  function ReadElements<T>(n: nat, elem: Reader<T>, close: Option<char>, input: string, acc: seq<T>)
    : (r: TupleRead<T>)
    requires |acc| < n
    ensures r.Parsed? ==> |r.t| == n
    decreases n - |acc|
  {
    match elem(input)
    case None => Failbit
    case Some((v, after)) =>
      var got := acc + [v];
      var last := |got| == n;
      if after == [] then
        if close.Some? || !last then Failbit else Parsed(got, [])
      else
        var u := Separated(after, last);
        if u == [] then Failbit
        else if !last then ReadElements(n, elem, close, u, got)
        else if close.None? then AssertionFailure
        else if u[0] != close.value then Failbit
        else Parsed(got, u[1..])
  }

  /** The blanks after an element, then (unless it was the last) one optional
      comma and the blanks after it.  Empty when the input runs out, which
      the loop treats as a failure. */
  function Separated(after: string, last: bool): (u: string)
    ensures u == [] || u[0] != ' '
  {
    var t := SkipBlanks(after);
    if t == [] then [] else SkipBlanks(if t[0] == ',' && !last then t[1..] else t)
  }

  /** The elements already read stay at the front of the tuple. */
  lemma {:induction false} ReadElementsPrefix<T>(n: nat, elem: Reader<T>, close: Option<char>, input: string, acc: seq<T>)
    requires |acc| < n
    ensures var r := ReadElements(n, elem, close, input, acc); r.Parsed? ==> r.t[..|acc|] == acc
    decreases n - |acc|
  {
    match elem(input)
    case None =>
    case Some((v, after)) =>
      var got := acc + [v];
      assert got[..|acc|] == acc;
      if after != [] && |got| < n {
        var u := Separated(after, false);
        if u != [] {
          ReadElementsPrefix(n, elem, close, u, got);
          var r := ReadElements(n, elem, close, u, got);
          if r.Parsed? {
            assert r.t[..|acc|] == r.t[..|got|][..|acc|];
          }
        }
      }
  }

  /** The reader with the unreachable-looking assertion turned into the
      failbit the rest of the operator uses for malformed input. */
  function Read<T>(n: nat, elem: Reader<T>, s: string): (r: TupleRead<T>)
    requires n >= 1
    ensures r != AssertionFailure
    ensures ReadAsWritten(n, elem, s) != AssertionFailure ==> r == ReadAsWritten(n, elem, s)
    ensures r.Parsed? ==> |r.t| == n
  {
    match ReadAsWritten(n, elem, s)
    case AssertionFailure => Failbit
    case other => other
  }

  /** One element followed by a comma and a non-blank character: the loop
      moves on to the next element. */
  lemma {:induction false} ReadElementsStep<T>(n: nat, elem: Reader<T>, close: Option<char>, input: string, acc: seq<T>,
                            v: T, rest: string)
    requires |acc| + 1 < n
    requires elem(input) == Some((v, "," + rest))
    requires rest != [] && rest[0] != ' '
    ensures ReadElements(n, elem, close, input, acc) == ReadElements(n, elem, close, rest, acc + [v])
  {
    var after := "," + rest;
    assert SkipBlanks(after) == after;
    assert after[1..] == rest;
    assert SkipBlanks(rest) == rest;
  }

  /** The last element followed by the closing bracket ends the tuple. */
  lemma {:induction false} ReadElementsLast<T>(n: nat, elem: Reader<T>, input: string, acc: seq<T>, v: T, tail: string)
    requires |acc| + 1 == n
    requires elem(input) == Some((v, ")" + tail))
    ensures ReadElements(n, elem, Some(')'), input, acc) == Parsed(acc + [v], tail)
  {
    var after := ")" + tail;
    assert SkipBlanks(after) == after;
    assert after[1..] == tail;
  }

  /** The last element of an unbracketed tuple followed by a non-blank,
      non-comma character reaches the assertion. */
  lemma {:induction false} ReadElementsUnbracketedLast<T>(n: nat, elem: Reader<T>, input: string, acc: seq<T>, v: T,
                                       after: string)
    requires |acc| + 1 == n
    requires elem(input) == Some((v, after))
    requires after != [] && after[0] != ' '
    ensures ReadElements(n, elem, None, input, acc) == AssertionFailure
  {
    assert SkipBlanks(after) == after;
  }

  /** Unbracketed input followed by a non-blank character after the last
      element reaches the assertion instead of setting the failbit: for
      instance "1,2,3x" read as a 3-tuple of integers. */
  lemma {:induction false} UnbracketedTrailingTextAsserts(a: int, b: int, c: int, junk: char)
    requires junk != ' ' && junk != ',' && !IsDigit(junk)
    ensures ReadAsWritten(3, ReadInt, IntToString(a) + "," + IntToString(b) + "," + IntToString(c) + [junk])
            == AssertionFailure
    ensures Read(3, ReadInt, IntToString(a) + "," + IntToString(b) + "," + IntToString(c) + [junk]) == Failbit
  {
    var s3 := IntToString(c) + [junk];
    var s2 := IntToString(b) + ("," + s3);
    var s1 := IntToString(a) + ("," + s2);
    assert IntToString(a) + "," + IntToString(b) + "," + IntToString(c) + [junk] == s1;
    ReadIntRoundTrip(a, "," + s2);
    ReadIntRoundTrip(b, "," + s3);
    ReadIntRoundTrip(c, [junk]);
    ThreeUnbracketed(ReadInt, s1, s2, s3, a, b, c, [junk]);
    UnbracketedStart(3, ReadInt, s1);
  }

  /** Three elements separated by commas, the last followed by anything but
      a blank, a comma or end of file: the unbracketed loop asserts. */
  lemma {:induction false} ThreeUnbracketed<T>(elem: Reader<T>, s1: string, s2: string, s3: string,
                                               a: T, b: T, c: T, after: string)
    requires elem(s1) == Some((a, "," + s2)) && s2 != [] && s2[0] != ' '
    requires elem(s2) == Some((b, "," + s3)) && s3 != [] && s3[0] != ' '
    requires elem(s3) == Some((c, after)) && after != [] && after[0] != ' '
    ensures ReadElements(3, elem, None, s1, []) == AssertionFailure
  {
    ReadElementsStep(3, elem, None, s1, [], a, s2);
    assert [] + [a] == [a];
    LastTwoUnbracketed(elem, s2, s3, a, b, c, after);
  }

  lemma {:induction false} LastTwoUnbracketed<T>(elem: Reader<T>, s2: string, s3: string, a: T, b: T, c: T, after: string)
    requires elem(s2) == Some((b, "," + s3)) && s3 != [] && s3[0] != ' '
    requires elem(s3) == Some((c, after)) && after != [] && after[0] != ' '
    ensures ReadElements(3, elem, None, s2, [a]) == AssertionFailure
  {
    ReadElementsStep(3, elem, None, s2, [a], b, s3);
    assert [a] + [b] == [a, b];
    ReadElementsUnbracketedLast(3, elem, s3, [a, b], c, after);
  }

  lemma {:induction false} UnbracketedStart<T>(n: nat, elem: Reader<T>, s: string)
    requires n >= 1
    requires s != [] && s[0] != ' ' && s[0] != '(' && s[0] != '['
    ensures ReadAsWritten(n, elem, s) == ReadElements(n, elem, None, s, [])
  {
    assert SkipBlanks(s) == s;
  }

  // ---------------------------------------------------------------------
  // Round trip

  /** The element printer and reader agree: reading a printed element stops
      exactly before a following ',' or ')', and a printed element neither is
      empty nor starts with a blank. */
  ghost predicate ElementRoundTrip<T(!new)>(show: T -> string, elem: Reader<T>, valid: T -> bool)
  {
    forall x: T, tail: string :: valid(x) && tail != [] && (tail[0] == ',' || tail[0] == ')') ==>
      |show(x)| >= 1 && show(x)[0] != ' ' && elem(show(x) + tail) == Some((x, tail))
  }

  lemma {:induction false} UseElementRoundTrip<T(!new)>(show: T -> string, elem: Reader<T>, valid: T -> bool, x: T, tail: string)
    requires ElementRoundTrip(show, elem, valid)
    requires valid(x) && tail != [] && (tail[0] == ',' || tail[0] == ')')
    ensures |show(x)| >= 1 && show(x)[0] != ' ' && elem(show(x) + tail) == Some((x, tail))
  {
  }

  /** The text printed for the elements from index k on, with the closing
      bracket and what follows the tuple. */
  function Suffix<T>(show: T -> string, t: seq<T>, k: nat, tail: string): string
    requires k < |t|
  {
    show(t[k]) + (ShowRest(show, t[k + 1..]) + ")" + tail)
  }

  lemma {:induction false} ReadElementsRoundTrip<T(!new)>(show: T -> string, elem: Reader<T>, valid: T -> bool,
                                                          t: seq<T>, k: nat, tail: string)
    requires ElementRoundTrip(show, elem, valid)
    requires forall i :: 0 <= i < |t| ==> valid(t[i])
    requires k < |t|
    ensures ReadElements(|t|, elem, Some(')'), Suffix(show, t, k, tail), t[..k]) == Parsed(t, tail)
    decreases |t| - k
  {
    var input := Suffix(show, t, k, tail);
    assert t[..k] + [t[k]] == t[..k + 1];
    if k + 1 < |t| {
      var next := Suffix(show, t, k + 1, tail);
      assert t[k + 1..][1..] == t[k + 2..];
      assert ShowRest(show, t[k + 1..]) + ")" + tail == "," + next;
      UseElementRoundTrip(show, elem, valid, t[k], "," + next);
      UseElementRoundTrip(show, elem, valid, t[k + 1], ShowRest(show, t[k + 2..]) + ")" + tail);
      ReadElementsStep(|t|, elem, Some(')'), input, t[..k], t[k], next);
      ReadElementsRoundTrip(show, elem, valid, t, k + 1, tail);
    } else {
      assert t[k + 1..] == [];
      assert ShowRest(show, t[k + 1..]) + ")" + tail == ")" + tail;
      UseElementRoundTrip(show, elem, valid, t[k], ")" + tail);
      assert t[..k + 1] == t;
      ReadElementsLast(|t|, elem, input, t[..k], t[k], tail);
    }
  }

  /** Reading a printed tuple returns it and leaves the following text
      unread; with nothing after it, the stream ends at end of file. */
  lemma {:induction false} RoundTrip<T(!new)>(show: T -> string, elem: Reader<T>, valid: T -> bool, t: seq<T>, tail: string)
    requires ElementRoundTrip(show, elem, valid)
    requires |t| >= 1 && forall i :: 0 <= i < |t| ==> valid(t[i])
    ensures ReadAsWritten(|t|, elem, Show(show, t) + tail) == Parsed(t, tail)
    ensures Read(|t|, elem, Show(show, t) + tail) == Parsed(t, tail)
  {
    var s := Show(show, t) + tail;
    var body := Suffix(show, t, 0, tail);
    assert s == "(" + body;
    assert SkipBlanks(s) == s;
    assert s[1..] == body;
    UseElementRoundTrip(show, elem, valid, t[0], ShowRest(show, t[1..]) + ")" + tail);
    assert SkipBlanks(body) == body;
    assert t[..0] == [];
    ReadElementsRoundTrip(show, elem, valid, t, 0, tail);
  }

  /** A printed tuple with nothing after it reads back with end of file set. */
  lemma {:induction false} RoundTripAtEnd<T(!new)>(show: T -> string, elem: Reader<T>, valid: T -> bool, t: seq<T>)
    requires ElementRoundTrip(show, elem, valid)
    requires |t| >= 1 && forall i :: 0 <= i < |t| ==> valid(t[i])
    ensures Read(|t|, elem, Show(show, t)) == Parsed(t, "")
  {
    RoundTrip(show, elem, valid, t, "");
    assert Show(show, t) + "" == Show(show, t);
  }

  /** Integers satisfy the element round trip. */
  lemma {:induction false} IntElements()
    ensures ElementRoundTrip(IntToString, ReadInt, (x: int) => true)
  {
    forall x: int, tail: string | tail != [] && (tail[0] == ',' || tail[0] == ')')
      ensures |IntToString(x)| >= 1 && IntToString(x)[0] != ' ' && ReadInt(IntToString(x) + tail) == Some((x, tail))
    {
      ReadIntRoundTrip(x, tail);
    }
  }

  /** A printed integer tuple reads back exactly, with end of file set. */
  lemma {:induction false} IntTupleRoundTrip(t: seq<int>)
    requires |t| >= 1
    ensures Read(|t|, ReadInt, Show(IntToString, t)) == Parsed(t, "")
  {
    IntElements();
    RoundTripAtEnd(IntToString, ReadInt, (x: int) => true, t);
  }

  /** Reading a pair of integers, packaged as an element reader. */
  function ReadPair(s: string): Option<(seq<int>, string)>
  {
    match Read(2, ReadInt, s)
    case Parsed(t, rest) => Some((t, rest))
    case _ => None
  }

  function ShowPair(t: seq<int>): string
  {
    if |t| >= 1 then Show(IntToString, t) else "()"
  }

  /** Tuples of integer pairs, such as "((2,4),(3,5))", read back exactly. */
  lemma {:induction false} NestedTupleRoundTrip(t: seq<seq<int>>)
    requires |t| >= 1 && forall i :: 0 <= i < |t| ==> |t[i]| == 2
    ensures Read(|t|, ReadPair, Show(ShowPair, t)) == Parsed(t, "")
  {
    var valid := (p: seq<int>) => |p| == 2;
    IntElements();
    forall x: seq<int>, tail: string | valid(x) && tail != [] && (tail[0] == ',' || tail[0] == ')')
      ensures |ShowPair(x)| >= 1 && ShowPair(x)[0] != ' ' && ReadPair(ShowPair(x) + tail) == Some((x, tail))
    {
      RoundTrip(IntToString, ReadInt, (y: int) => true, x, tail);
    }
    assert ElementRoundTrip(ShowPair, ReadPair, valid);
    RoundTripAtEnd(ShowPair, ReadPair, valid, t);
  }

  /** The documented example "(1,4,6)". */
  lemma {:induction false} ReadExample()
    ensures Read(3, ReadInt, "(1,4,6)") == Parsed([1, 4, 6], "")
  {
    IntTupleRoundTrip([1, 4, 6]);
    ShowExample();
  }

  lemma {:induction false} ShowExample()
    ensures Show(IntToString, [1, 4, 6]) == "(1,4,6)"
  {
    var t := [1, 4, 6];
    assert IntToString(1) == "1";
    assert IntToString(4) == "4";
    assert IntToString(6) == "6";
    assert t[1..] == [4, 6] && [4, 6][1..] == [6] && [6][1..] == [];
    assert ShowRest(IntToString, [6]) == ",6";
    assert ShowRest(IntToString, [4, 6]) == ",4,6";
  }
}
