/** Pixel data type tags and their text tokens (bonelab/types.hpp). */
module DataTypes {
  import opened Wrappers
  import opened Text

  /** Number of valid tags; valid tags are the integers 0 .. NumberOfDataTypes-1
      in the order INT8, UINT8, INT16, UINT16, INT32, UINT32, INT64, UINT64,
      FLOAT32, FLOAT64. */
  const NumberOfDataTypes: int := 10

  const Tokens: seq<string> :=
    ["INT8", "UINT8", "INT16", "UINT16", "INT32", "UINT32", "INT64", "UINT64", "FLOAT32", "FLOAT64"]

  /** The value DataTypeFromString returns for an unknown token. */
  const NoMatch: int := -1

  lemma {:induction false} TokensDistinct()
    ensures |Tokens| == NumberOfDataTypes
    ensures forall i, j :: 0 <= i < j < |Tokens| ==> Tokens[i] != Tokens[j]
    ensures forall i :: 0 <= i < |Tokens| ==> |Tokens[i]| > 0 && forall c :: c in Tokens[i] ==> !IsSpace(c)
  {
  }

  /** DataTypeAsString (types.hpp:76-82): the token of a valid tag, and no
      string (NULL) for anything outside [0, NumberOfDataTypes). */
  function DataTypeAsString(t: int): (r: Option<string>)
    ensures r.Some? <==> 0 <= t < NumberOfDataTypes
    ensures r.Some? ==> |r.value| > 0 && r.value in Tokens
  {
    if 0 <= t < NumberOfDataTypes then Some(Tokens[t]) else None
  }

  /** DataTypeFromString (types.hpp:88-96): linear search over the tags in
      order, returning the first whose token equals s, or NoMatch. */
  method DataTypeFromString(s: string) returns (t: int)
    ensures t == NoMatch || 0 <= t < NumberOfDataTypes
    ensures t == NoMatch <==> s !in Tokens
    ensures t != NoMatch ==> DataTypeAsString(t) == Some(s)
  {
    var i := 0;
    while i < NumberOfDataTypes
      invariant 0 <= i <= NumberOfDataTypes
      invariant forall j :: 0 <= j < i ==> Tokens[j] != s
    {
      if Tokens[i] == s {
        return i;
      }
      i := i + 1;
    }
    return NoMatch;
  }

  /** The tag a token denotes: the partner of DataTypeAsString. */
  lemma {:induction false} AsStringInjective(t: int, u: int)
    requires 0 <= t < NumberOfDataTypes && 0 <= u < NumberOfDataTypes
    requires DataTypeAsString(t) == DataTypeAsString(u)
    ensures t == u
  {
    TokensDistinct();
  }

  /** operator<< (types.hpp:112-116): writes the token of a valid tag. */
  function WriteDataType(t: int): (r: string)
    requires 0 <= t < NumberOfDataTypes
    ensures Some(r) == DataTypeAsString(t)
  {
    Tokens[t]
  }

  /** operator>> (types.hpp:118-126): extracts one whitespace-delimited word
      and maps it to a tag; an unknown word (or no word at all) sets the
      failbit, modelled as Err.  On success the unread rest is returned. */
  method ReadDataType(input: string) returns (r: Result<(int, string)>)
    ensures r.Ok? ==> 0 <= r.value.0 < NumberOfDataTypes
    ensures r.Ok? <==> SkipSpace(input)[..WordLength(SkipSpace(input))] in Tokens
    ensures r.Ok? ==> WriteDataType(r.value.0) == SkipSpace(input)[..WordLength(SkipSpace(input))]
    ensures r.Ok? ==> r.value.1 == SkipSpace(input)[WordLength(SkipSpace(input))..]
  {
    var split := SplitWord(input);
    var t := DataTypeFromString(split.0);
    if t == NoMatch {
      return Err("failbit");
    }
    return Ok((t, split.1));
  }

  /** Writing a tag and reading it back, with whitespace or nothing after it,
      gives the tag back. */
  lemma {:induction false} WriteReadWord(t: int, tail: string)
    requires 0 <= t < NumberOfDataTypes
    requires tail == [] || IsSpace(tail[0])
    ensures WordLength(SkipSpace(WriteDataType(t) + tail)) == |WriteDataType(t)|
    ensures SkipSpace(WriteDataType(t) + tail)[..|WriteDataType(t)|] == WriteDataType(t)
  {
    TokensDistinct();
    var w := WriteDataType(t);
    assert SkipSpace(w + tail) == w + tail;
    WordOfToken(w, tail);
  }

  lemma {:induction false} WordOfToken(w: string, tail: string)
    requires forall c :: c in w ==> !IsSpace(c)
    requires tail == [] || IsSpace(tail[0])
    ensures WordLength(w + tail) == |w|
    decreases |w|
  {
    if w != [] {
      assert (w + tail)[1..] == w[1..] + tail;
      WordOfToken(w[1..], tail);
    }
  }
}
