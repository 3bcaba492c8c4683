/** Character-level text helpers shared by the stream operators, the CONF
    parser and the configuration validator.

    Formatted extraction of numbers follows the C++ stream rules as far as
    the readers here need them: leading whitespace is skipped, an optional sign,
    then digits; the unread rest of the input is returned alongside the
    value, and an empty rest means the stream reached end of file. */
module Text {
  import opened Wrappers

  /** The characters `isspace` accepts in the C locale. */
  predicate IsSpace(c: char)
  {
    c == ' ' || c == '\t' || c == '\n' || c == '\r' || c == '\U{B}' || c == '\U{C}'
  }

  predicate IsDigit(c: char)
  {
    '0' <= c <= '9'
  }

  function DigitValue(c: char): (d: int)
    requires IsDigit(c)
    ensures 0 <= d < 10
  {
    c as int - '0' as int
  }

  function DigitChar(d: int): (c: char)
    requires 0 <= d < 10
    ensures IsDigit(c) && DigitValue(c) == d
  {
    (d + '0' as int) as char
  }

  /** Whitespace skipped by a formatted extraction (`std::ws`). */
  function SkipSpace(s: string): (r: string)
    ensures |r| <= |s| && r == s[|s| - |r|..]
    ensures r == [] || !IsSpace(r[0])
    ensures forall i :: 0 <= i < |s| - |r| ==> IsSpace(s[i])
  {
    if s != [] && IsSpace(s[0]) then SkipSpace(s[1..]) else s
  }

  /** Whitespace removed from both ends (property_tree's detail::trim):
      the result is the input less its leading and trailing blanks. */
  function Trim(s: string): (r: string)
    ensures IsTrimmed(r)
    ensures |r| <= |s|
  {
    TrimRight(SkipSpace(s))
  }

  /** What Trim keeps is a contiguous part of its input. */
  lemma {:induction false} TrimIsSlice(s: string) returns (i: nat)
    ensures i + |Trim(s)| <= |s| && Trim(s) == s[i..i + |Trim(s)|]
  {
    var t := SkipSpace(s);
    var r := TrimRight(t);
    i := |s| - |t|;
    assert t == s[i..];
    assert r == t[..|r|];
  }

  function TrimRight(s: string): (r: string)
    ensures |r| <= |s| && r == s[..|r|]
    ensures r == [] || !IsSpace(r[|r| - 1])
    ensures forall i :: |r| <= i < |s| ==> IsSpace(s[i])
  {
    if s != [] && IsSpace(s[|s| - 1]) then TrimRight(s[..|s| - 1]) else s
  }

  /** Trimming adds no character. */
  lemma {:induction false} TrimKeepsOut(s: string, c: char)
    requires c !in s
    ensures c !in Trim(s)
  {
    var i := TrimIsSlice(s);
    forall j | 0 <= j < |Trim(s)|
      ensures Trim(s)[j] != c
    {
      assert Trim(s)[j] == s[i + j];
    }
  }

  /** A string that starts with a non-blank keeps its first character. */
  lemma {:induction false} TrimKeepsFirst(s: string)
    requires s != [] && !IsSpace(s[0])
    ensures Trim(s) != [] && Trim(s)[0] == s[0]
  {
    assert SkipSpace(s) == s;
    var r := TrimRight(s);
    assert !IsSpace(s[0]);
  }

  /** A string with no whitespace at either end. */
  predicate IsTrimmed(s: string)
  {
    s == [] || (!IsSpace(s[0]) && !IsSpace(s[|s| - 1]))
  }

  predicate AllSpace(s: string)
  {
    forall i :: 0 <= i < |s| ==> IsSpace(s[i])
  }

  /** Trimming removes exactly the whitespace padding around a trimmed
      string. */
  lemma {:induction false} TrimPadded(a: string, t: string, b: string)
    requires AllSpace(a) && AllSpace(b) && IsTrimmed(t)
    ensures Trim(a + t + b) == t
  {
    if t == [] {
      assert a + t + b == (a + b) + [];
      SkipSpacePrefix(a + b, []);
    } else {
      assert a + t + b == a + (t + b);
      SkipSpacePrefix(a, t + b);
      TrimRightSuffix(t, b);
    }
  }

  lemma {:induction false} SkipSpacePrefix(a: string, u: string)
    requires AllSpace(a) && (u == [] || !IsSpace(u[0]))
    ensures SkipSpace(a + u) == u
    decreases |a|
  {
    if a != [] {
      assert (a + u)[1..] == a[1..] + u;
      SkipSpacePrefix(a[1..], u);
    } else {
      assert a + u == u;
    }
  }

  lemma {:induction false} TrimRightSuffix(u: string, b: string)
    requires AllSpace(b) && (u == [] || !IsSpace(u[|u| - 1]))
    ensures TrimRight(u + b) == u
    decreases |b|
  {
    if b != [] {
      assert (u + b)[..|u + b| - 1] == u + b[..|b| - 1];
      TrimRightSuffix(u, b[..|b| - 1]);
    } else {
      assert u + b == u;
    }
  }

  /** Length of the leading run of non-whitespace characters: the word a
      formatted string extraction (`s >> str`) reads. */
  function WordLength(s: string): (n: nat)
    ensures n <= |s|
    ensures forall i :: 0 <= i < n ==> !IsSpace(s[i])
    ensures n == |s| || IsSpace(s[n])
  {
    if s == [] || IsSpace(s[0]) then 0 else 1 + WordLength(s[1..])
  }

  /** The first whitespace-delimited word of `s` and the unread text after
      it, as extraction into a std::string splits them. */
  function SplitWord(s: string): (r: (string, string))
    ensures r.0 + r.1 == SkipSpace(s)
    ensures forall i :: 0 <= i < |r.0| ==> !IsSpace(r.0[i])
    ensures r.1 == [] || IsSpace(r.1[0])
  {
    var w := SkipSpace(s);
    var n := WordLength(w);
    assert w[..n] + w[n..] == w;
    (w[..n], w[n..])
  }

  /** The split is the only one with a space-free word followed by nothing
      or a space. */
  lemma {:induction false} SplitWordUnique(s: string, word: string, rest: string)
    requires word + rest == SkipSpace(s)
    requires forall i :: 0 <= i < |word| ==> !IsSpace(word[i])
    requires rest == [] || IsSpace(rest[0])
    ensures SplitWord(s) == (word, rest)
  {
    var w := SkipSpace(s);
    if rest != [] {
      assert w[|word|] == rest[0];
    }
    WordLengthIs(w, |word|);
    assert w[..|word|] == word;
  }

  /** The word length is the one position that ends a space-free prefix. */
  lemma {:induction false} WordLengthIs(w: string, k: nat)
    requires k <= |w|
    requires forall i :: 0 <= i < k ==> !IsSpace(w[i])
    requires k == |w| || IsSpace(w[k])
    ensures WordLength(w) == k
    decreases k
  {
    if k > 0 {
      assert !IsSpace(w[0]);
      WordLengthIs(w[1..], k - 1);
    }
  }

  /** Length of the leading run of digits. */
  function DigitRun(s: string): (n: nat)
    ensures n <= |s|
    ensures forall i :: 0 <= i < n ==> IsDigit(s[i])
    ensures n == |s| || !IsDigit(s[n])
  {
    if s == [] || !IsDigit(s[0]) then 0 else 1 + DigitRun(s[1..])
  }

  /** Decimal value of a digit string, read left to right. */
  function DigitsValue(ds: string): (v: nat)
    requires forall i :: 0 <= i < |ds| ==> IsDigit(ds[i])
    decreases |ds|
  {
    if ds == [] then 0 else DigitsValue(ds[..|ds| - 1]) * 10 + DigitValue(ds[|ds| - 1])
  }

  /** Decimal digits of a natural number, most significant first, with no
      leading zeros (what `operator<<` prints for an integer). */
  function NatToString(n: nat): (s: string)
    ensures |s| >= 1 && forall i :: 0 <= i < |s| ==> IsDigit(s[i])
    decreases n
  {
    if n < 10 then [DigitChar(n)] else NatToString(n / 10) + [DigitChar(n % 10)]
  }

  function IntToString(x: int): (s: string)
    ensures |s| >= 1 && !IsSpace(s[0])
  {
    if x < 0 then "-" + NatToString(-x) else NatToString(x)
  }

  lemma {:induction false} NatToStringValue(n: nat)
    ensures DigitsValue(NatToString(n)) == n
    decreases n
  {
    if n >= 10 {
      NatToStringValue(n / 10);
      var s := NatToString(n);
      assert s[..|s| - 1] == NatToString(n / 10);
    }
  }

  lemma {:induction false} DigitRunOfDigits(ds: string, tail: string)
    requires forall i :: 0 <= i < |ds| ==> IsDigit(ds[i])
    requires tail == [] || !IsDigit(tail[0])
    ensures DigitRun(ds + tail) == |ds|
    decreases |ds|
  {
    if ds != [] {
      assert (ds + tail)[1..] == ds[1..] + tail;
      DigitRunOfDigits(ds[1..], tail);
    }
  }

  /** Formatted extraction of an integer (`s >> i`): whitespace, an optional
      sign, at least one digit.  No digits sets the failbit (None). */
  function ReadInt(s: string): (r: Option<(int, string)>)
  {
    ReadSigned(SkipSpace(s))
  }

  /** The sign and digits of an integer, once whitespace is skipped. */
  function ReadSigned(t: string): (r: Option<(int, string)>)
  {
    var signed := t != [] && (t[0] == '-' || t[0] == '+');
    var u := if signed then t[1..] else t;
    match ReadDigits(u)
    case None => None
    case Some((v, rest)) => Some((if signed && t[0] == '-' then -v else v, rest))
  }

  /** At least one digit, and the value of the whole run of digits. */
  function ReadDigits(u: string): (r: Option<(int, string)>)
    ensures r.Some? ==> |r.value.1| < |u| && r.value.1 == u[|u| - |r.value.1|..]
    ensures r.Some? ==> r.value.1 == [] || !IsDigit(r.value.1[0])
    ensures r.Some? ==> r.value.0 >= 0
  {
    var n := DigitRun(u);
    if n == 0 then None else Some((DigitsValue(u[..n]) as int, u[n..]))
  }

  lemma {:induction false} ReadDigitsOf(n: nat, tail: string)
    requires tail == [] || !IsDigit(tail[0])
    ensures ReadDigits(NatToString(n) + tail) == Some((n as int, tail))
  {
    var ds := NatToString(n);
    NatToStringValue(n);
    DigitRunOfDigits(ds, tail);
    assert (ds + tail)[..|ds|] == ds;
    assert (ds + tail)[|ds|..] == tail;
  }

  /** Printing an integer and extracting it again gives it back, leaving any
      text that does not continue the number. */
  lemma {:induction false} ReadIntRoundTrip(x: int, tail: string)
    requires tail == [] || !IsDigit(tail[0])
    ensures ReadInt(IntToString(x) + tail) == Some((x, tail))
  {
    if x < 0 {
      ReadIntNegative(x, tail);
    } else {
      ReadIntNonNegative(x, tail);
    }
  }

  lemma {:induction false} ReadIntNonNegative(x: nat, tail: string)
    requires tail == [] || !IsDigit(tail[0])
    ensures ReadInt(IntToString(x) + tail) == Some((x, tail))
  {
    var ds := NatToString(x);
    ReadDigitsOf(x, tail);
    var s := ds + tail;
    assert IntToString(x) == ds;
    assert IsDigit(s[0]);
    assert SkipSpace(s) == s;
  }

  lemma {:induction false} ReadIntNegative(x: int, tail: string)
    requires x < 0
    requires tail == [] || !IsDigit(tail[0])
    ensures ReadInt(IntToString(x) + tail) == Some((x, tail))
  {
    var ds := NatToString(-x);
    ReadDigitsOf(-x, tail);
    assert IntToString(x) + tail == ['-'] + (ds + tail);
    ReadIntMinus(ds + tail, -x, tail);
  }

  /** A leading minus sign negates the digits after it. */
  lemma {:induction false} ReadIntMinus(u: string, v: int, rest: string)
    requires ReadDigits(u) == Some((v, rest))
    ensures ReadInt(['-'] + u) == Some((-v, rest))
  {
    var s := ['-'] + u;
    NegativeStart(s, u);
    SignedMinus(s, u, v, rest);
  }

  lemma {:induction false} SignedMinus(s: string, u: string, v: int, rest: string)
    requires s == ['-'] + u && ReadDigits(u) == Some((v, rest))
    ensures ReadSigned(s) == Some((-v, rest))
  {
    assert s[0] == '-' && s[1..] == u;
  }

  lemma {:induction false} NegativeStart(s: string, rest: string)
    requires s == ['-'] + rest
    ensures SkipSpace(s) == s
    ensures s[1..] == rest
  {
  }

  /** The ptree value translator: the whole string must be one value, with
      only whitespace after it (`iss >> v >> std::ws` then end of file). */
  function WholeValue<T>(r: Option<(T, string)>): (v: Option<T>)
    ensures v.Some? <==> r.Some? && SkipSpace(r.value.1) == []
  {
    match r
    case Some((x, rest)) => if SkipSpace(rest) == [] then Some(x) else None
    case None => None
  }

  function ParseInt(s: string): Option<int>
  {
    WholeValue(ReadInt(s))
  }

  /** A value printed by IntToString is read back by the ptree translator. */
  lemma {:induction false} ParseIntRoundTrip(x: int)
    ensures ParseInt(IntToString(x)) == Some(x)
  {
    ReadIntRoundTrip(x, "");
    assert IntToString(x) + "" == IntToString(x);
  }

  function Pow10(e: nat): (r: nat)
    ensures r >= 1
  {
    if e == 0 then 1 else 10 * Pow10(e - 1)
  }

  /** m * 10^e for an integer exponent of either sign. */
  function ScaleBy10(m: int, e: int): real
  {
    if e >= 0 then (m * Pow10(e)) as real else m as real / Pow10(-e) as real
  }

  /** Formatted extraction of a floating-point number in decimal notation:
      whitespace, an optional sign, then an unsigned decimal. */
  function ReadReal(s: string): (r: Option<(real, string)>)
  {
    ReadSignedReal(SkipSpace(s))
  }

  /** The sign and unsigned decimal of a number, once whitespace is skipped. */
  function ReadSignedReal(t: string): (r: Option<(real, string)>)
  {
    var signed := t != [] && (t[0] == '-' || t[0] == '+');
    var u := if signed then t[1..] else t;
    match ReadDecimal(u)
    case None => None
    case Some((v, rest)) => Some((if signed && t[0] == '-' then -v else v, rest))
  }

  /** Digits with an optional fraction (at least one digit in all), then an
      optional exponent that must carry digits. */
  function ReadDecimal(u: string): (r: Option<(real, string)>)
  {
    var a := DigitRun(u);
    var hasPoint := a < |u| && u[a] == '.';
    var fracStart := if hasPoint then a + 1 else a;
    var b: int := DigitRun(u[fracStart..]);
    var afterMantissa := fracStart + b;
    if a + b == 0 then None
    else
      var m := DigitsValue(u[..a] + u[fracStart..afterMantissa]);
      if afterMantissa < |u| && (u[afterMantissa] == 'e' || u[afterMantissa] == 'E') then
        var ex := u[afterMantissa + 1..];
        var exSigned := ex != [] && (ex[0] == '-' || ex[0] == '+');
        match ReadDigits(if exSigned then ex[1..] else ex)
        case None => None
        case Some((e, rest)) =>
          var e': int := if exSigned && ex[0] == '-' then -e else e;
          Some((ScaleBy10(m, e' - b), rest))
      else
        Some((ScaleBy10(m, -b), u[afterMantissa..]))
  }

  lemma {:induction false} ReadDecimalOfNat(n: nat)
    ensures ReadDecimal(NatToString(n)) == Some((n as real, ""))
  {
    var ds := NatToString(n);
    NatToStringValue(n);
    DigitRunOfDigits(ds, "");
    assert ds + "" == ds;
    assert ds[..|ds|] == ds;
    assert ds[|ds|..] == "";
    assert DigitRun(ds[|ds|..]) == 0;
    assert ds[..|ds|] + ds[|ds|..|ds|] == ds;
  }

  function ParseReal(s: string): Option<real>
  {
    WholeValue(ReadReal(s))
  }

  /** Integers written without a fraction read back as the same real. */
  lemma {:induction false} ParseRealOfInt(x: int)
    ensures ParseReal(IntToString(x)) == Some(x as real)
  {
    ReadRealOfInt(x);
  }

  lemma {:induction false} ReadRealOfInt(x: int)
    ensures ReadReal(IntToString(x)) == Some((x as real, ""))
  {
    if x < 0 {
      ReadDecimalOfNat(-x);
      assert IntToString(x) == ['-'] + NatToString(-x);
      ReadRealMinus(NatToString(-x), (-x) as real, "");
    } else {
      ReadDecimalOfNat(x);
      ReadRealUnsigned(NatToString(x));
    }
  }

  lemma {:induction false} ReadRealMinus(u: string, v: real, rest: string)
    requires ReadDecimal(u) == Some((v, rest))
    ensures ReadReal(['-'] + u) == Some((-v, rest))
  {
    var s := ['-'] + u;
    NegativeStart(s, u);
    SignedRealMinus(s, u, v, rest);
  }

  lemma {:induction false} SignedRealMinus(s: string, u: string, v: real, rest: string)
    requires s == ['-'] + u && ReadDecimal(u) == Some((v, rest))
    ensures ReadSignedReal(s) == Some((-v, rest))
  {
    assert s[0] == '-' && s[1..] == u;
  }

  lemma {:induction false} ReadRealUnsigned(u: string)
    requires u != [] && IsDigit(u[0])
    ensures ReadReal(u) == ReadDecimal(u)
  {
    NoSpaceStart(u);
    SignedRealUnsigned(u);
  }

  lemma {:induction false} NoSpaceStart(s: string)
    requires s != [] && !IsSpace(s[0])
    ensures SkipSpace(s) == s
  {
  }

  lemma {:induction false} SignedRealUnsigned(u: string)
    requires u != [] && IsDigit(u[0])
    ensures ReadSignedReal(u) == ReadDecimal(u)
  {
    assert !(u[0] == '-' || u[0] == '+');
  }
}
