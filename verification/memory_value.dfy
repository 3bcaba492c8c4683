/** Memory sizes in the configuration (ReconConfiguration::ParseMemoryValue,
    source/ReconConfiguration.cpp:447-482): either "Automatic" or a whole
    number followed by MB or GB.  The machine's total memory, which the
    program asks the operating system for, is a parameter.

    The program multiplies the number by the unit in 64-bit signed
    arithmetic and only then checks that the product is positive, so a
    product that wraps round to a positive value is accepted.
    ParseMemoryValueAsWritten keeps that behaviour; ParseMemoryValue
    rejects every product that does not fit. */
module MemoryValue {
  import opened Wrappers
  import Text
  import ReconParams

  const MiB: int := 0x10_0000
  const GiB: int := 0x4000_0000
  const TwoTo64: int := 0x1_0000_0000_0000_0000

  const AutomaticText: string := "Automatic"
  const MBText: string := "MB"
  const GBText: string := "GB"

  function UnitsMessage(key: string): string
  {
    "Invalid units for " + key + ". Must specify MB or GB."
  }

  function NumberMessage(key: string): string
  {
    "Unable to parse " + key + " numerical value."
  }

  // ---------------------------------------------------------------------
  // Searching and number syntax

  /** p occurs in s starting at position i. */
  predicate OccursAt(s: string, p: string, i: int)
  {
    0 <= i && i + |p| <= |s| && s[i..i + |p|] == p
  }

  /** std::string::find(p, i): the first occurrence of p at or after i. */
  function FindFrom(s: string, p: string, i: nat): (r: Option<nat>)
    requires i <= |s|
    ensures r.Some? ==> i <= r.value && OccursAt(s, p, r.value)
    ensures r.Some? ==> forall j :: i <= j < r.value ==> !OccursAt(s, p, j)
    ensures r.None? ==> forall j :: i <= j ==> !OccursAt(s, p, j)
    decreases |s| - i
  {
    if i + |p| > |s| then None
    else if s[i..i + |p|] == p then Some(i)
    else FindFrom(s, p, i + 1)
  }

  function Find(s: string, p: string): Option<nat>
  {
    FindFrom(s, p, 0)
  }

  /** boost::lexical_cast<int64_t> of trimmed text: an optional sign and
      digits making up the whole text, within 64 bits. */
  function ParseInt64(s: string): (r: Option<int>)
    ensures r.Some? ==> ReconParams.MinInt64 <= r.value <= ReconParams.MaxInt64
    ensures r.Some? ==> Text.ParseInt(s) == r
  {
    match Text.ParseInt(s)
    case None => None
    case Some(v) => if ReconParams.MinInt64 <= v <= ReconParams.MaxInt64 then Some(v) else None
  }

  /** The int64_t an integer wraps round to: it moves by whole turns of
      2^64 until it lies in range. */
  function WrapInt64(x: int): (r: int)
    ensures ReconParams.MinInt64 <= r <= ReconParams.MaxInt64
    ensures (r - x) % TwoTo64 == 0
    decreases if x > ReconParams.MaxInt64 then x - ReconParams.MaxInt64
              else if x < ReconParams.MinInt64 then ReconParams.MinInt64 - x
              else 0
  {
    if x > ReconParams.MaxInt64 then WrapInt64(x - TwoTo64)
    else if x < ReconParams.MinInt64 then WrapInt64(x + TwoTo64)
    else x
  }

  lemma {:induction false} WrapInRange(x: int)
    requires ReconParams.MinInt64 <= x <= ReconParams.MaxInt64
    ensures WrapInt64(x) == x
  {
  }

  // ---------------------------------------------------------------------
  // The value

  /** "Automatic": all the memory but one GiB, and at least 512 MiB. */
  function AutomaticMemory(systemMemory: int): (m: int)
    ensures m >= 512 * MiB && m >= systemMemory - GiB
    ensures m == 512 * MiB || m == systemMemory - GiB
  {
    if 512 * MiB < systemMemory - GiB then systemMemory - GiB else 512 * MiB
  }

  /** The unit: the first "MB" in the text, failing that the first "GB";
      returned as its position and its factor. */
  function Units(text: string): (r: Option<(nat, int)>)
    ensures r.Some? ==> r.value.0 <= |text| && (r.value.1 == MiB || r.value.1 == GiB)
    ensures r.Some? && r.value.1 == MiB ==> OccursAt(text, MBText, r.value.0)
    ensures r.Some? && r.value.1 == GiB ==>
              OccursAt(text, GBText, r.value.0) && forall j :: !OccursAt(text, MBText, j)
    ensures r.None? <==> (forall j :: !OccursAt(text, MBText, j)) && (forall j :: !OccursAt(text, GBText, j))
  {
    match Find(text, MBText)
    case Some(p) => Some((p, MiB))
    case None =>
      match Find(text, GBText)
      case Some(p) => Some((p, GiB))
      case None => None
  }

  /** The number before the unit and the unit's factor, before they are
      multiplied. */
  function MemoryAmount(key: string, text: string): (r: Result<(int, int)>)
    ensures r.Err? ==> r.msg == UnitsMessage(key) || r.msg == NumberMessage(key)
    ensures r.Err? && r.msg == UnitsMessage(key) ==> Units(text).None?
    ensures r.Ok? ==> Units(text).Some? && r.value.1 == Units(text).value.1 &&
                      ParseInt64(Text.Trim(text[..Units(text).value.0])) == Some(r.value.0)
  {
    match Units(text)
    case None => Err(UnitsMessage(key))
    case Some((pos, factor)) =>
      match ParseInt64(Text.Trim(text[..pos]))
      case None => Err(NumberMessage(key))
      case Some(v) => Ok((v, factor))
  }

  /** The function as the program has it: the product wraps to 64 bits
      before its sign is checked. */
  function ParseMemoryValueAsWritten(key: string, text: string, systemMemory: int): (r: Result<int>)
    ensures text == AutomaticText ==> r == Ok(AutomaticMemory(systemMemory))
    ensures r.Ok? ==> r.value > 0
    ensures text != AutomaticText && r.Ok? ==>
              MemoryAmount(key, text).Ok? &&
              r.value == WrapInt64(MemoryAmount(key, text).value.0 * MemoryAmount(key, text).value.1)
  {
    if text == AutomaticText then Ok(AutomaticMemory(systemMemory))
    else
      var amount :- MemoryAmount(key, text);
      BytesAsWritten(amount)
  }

  /** `value *= factor` in 64-bit arithmetic, then `bonelab_assert(value > 0)`. */
  function BytesAsWritten(amount: (int, int)): (r: Result<int>)
    ensures r.Ok? <==> WrapInt64(amount.0 * amount.1) > 0
    ensures r.Ok? ==> r.value == WrapInt64(amount.0 * amount.1)
    ensures r.Err? ==> r.msg == AssertionMessage
  {
    var value := WrapInt64(amount.0 * amount.1);
    if value > 0 then Ok(value) else Err(AssertionMessage)
  }

  /** The function as intended: the amount in bytes, which must be positive
      and representable. */
  function ParseMemoryValue(key: string, text: string, systemMemory: int): (r: Result<int>)
    ensures text == AutomaticText ==> r == Ok(AutomaticMemory(systemMemory))
    ensures text != AutomaticText && Units(text).None? ==> r == Err(UnitsMessage(key))
    ensures text != AutomaticText && r.Ok? ==>
              MemoryAmount(key, text).Ok? && 0 < r.value <= ReconParams.MaxInt64 &&
              r.value == MemoryAmount(key, text).value.0 * MemoryAmount(key, text).value.1
  {
    if text == AutomaticText then Ok(AutomaticMemory(systemMemory))
    else
      var amount :- MemoryAmount(key, text);
      Bytes(amount)
  }

  /** The product of number and unit, accepted only when it is positive and
      fits in 64 bits. */
  function Bytes(amount: (int, int)): (r: Result<int>)
    ensures r.Ok? <==> 0 < amount.0 * amount.1 <= ReconParams.MaxInt64
    ensures r.Ok? ==> r.value == amount.0 * amount.1
    ensures r.Err? ==> r.msg == AssertionMessage
  {
    var value := amount.0 * amount.1;
    if 0 < value <= ReconParams.MaxInt64 then Ok(value) else Err(AssertionMessage)
  }

  /** The two agree whenever the product fits in 64 bits. */
  lemma {:induction false} AgreeWithoutOverflow(key: string, text: string, systemMemory: int)
    requires text != AutomaticText && MemoryAmount(key, text).Ok?
    requires var (v, f) := MemoryAmount(key, text).value;
             ReconParams.MinInt64 <= v * f <= ReconParams.MaxInt64
    ensures ParseMemoryValueAsWritten(key, text, systemMemory) == ParseMemoryValue(key, text, systemMemory)
  {
    BytesAgree(MemoryAmount(key, text).value);
  }

  lemma {:induction false} BytesAgree(amount: (int, int))
    requires ReconParams.MinInt64 <= amount.0 * amount.1 <= ReconParams.MaxInt64
    ensures BytesAsWritten(amount) == Bytes(amount)
  {
    WrapInRange(amount.0 * amount.1);
  }

  // ---------------------------------------------------------------------
  // Writing an amount and reading it back

  /** An amount as a user writes it: the number, then the unit. */
  function ShowMemory(n: int, gigabytes: bool): string
  {
    Text.IntToString(n) + (if gigabytes then GBText else MBText)
  }

  function Factor(gigabytes: bool): int
  {
    if gigabytes then GiB else MiB
  }

  /** A printed integer holds no letter of a unit, and no blank at its ends. */
  lemma {:induction false} NumberText(n: int)
    ensures forall i :: 0 <= i < |Text.IntToString(n)| ==>
              Text.IntToString(n)[i] != 'M' && Text.IntToString(n)[i] != 'G'
    ensures Text.IsTrimmed(Text.IntToString(n))
  {
    var ds := Text.NatToString(if n < 0 then -n else n);
    assert Text.IsDigit(ds[|ds| - 1]);
    if n < 0 {
      assert Text.IntToString(n) == "-" + ds;
    }
  }

  /** The unit is found right after the number. */
  lemma {:induction false} UnitsOfShown(n: int, gigabytes: bool)
    ensures Units(ShowMemory(n, gigabytes)) == Some((|Text.IntToString(n)|, Factor(gigabytes)))
  {
    var ds := Text.IntToString(n);
    var s := ShowMemory(n, gigabytes);
    assert |s| == |ds| + 2;
    NumberText(n);
    forall j | 0 <= j < |ds| ensures !OccursAt(s, MBText, j) && !OccursAt(s, GBText, j) {
      assert s[j] == ds[j];
    }
    assert s[|ds|..|ds| + 2] == (if gigabytes then GBText else MBText);
    if gigabytes {
      assert OccursAt(s, GBText, |ds|);
      assert !OccursAt(s, MBText, |ds|) by { assert s[|ds|..|ds| + 2][0] == 'G'; }
      assert forall j :: !OccursAt(s, MBText, j) by {
        forall j ensures !OccursAt(s, MBText, j) {
          if j > |ds| { assert j + 2 > |s|; }
        }
      }
      assert Find(s, MBText).None?;
      assert Find(s, GBText) == Some(|ds|);
    } else {
      assert OccursAt(s, MBText, |ds|);
      assert Find(s, MBText) == Some(|ds|);
    }
  }

  /** The number and the unit of a written amount are read back. */
  lemma {:induction false} AmountOfShown(key: string, n: int, gigabytes: bool)
    requires ReconParams.MinInt64 <= n <= ReconParams.MaxInt64
    ensures ShowMemory(n, gigabytes) != AutomaticText
    ensures MemoryAmount(key, ShowMemory(n, gigabytes)) == Ok((n, Factor(gigabytes)))
  {
    var ds := Text.IntToString(n);
    var s := ShowMemory(n, gigabytes);
    assert Units(s) == Some((|ds|, Factor(gigabytes))) by {
      UnitsOfShown(n, gigabytes);
    }
    assert Text.Trim(s[..|ds|]) == ds by {
      assert s[..|ds|] == ds;
      NumberText(n);
      Text.TrimPadded("", ds, "");
      assert "" + ds + "" == ds;
    }
    assert ParseInt64(ds) == Some(n) by {
      Text.ParseIntRoundTrip(n);
    }
    assert s != AutomaticText by {
      assert s[|s| - 1] == 'B';
    }
    AmountFromParts(key, s, |ds|, Factor(gigabytes), n);
  }

  lemma {:induction false} AmountFromParts(key: string, s: string, pos: nat, factor: int, n: int)
    requires pos <= |s| && Units(s) == Some((pos, factor))
    requires ParseInt64(Text.Trim(s[..pos])) == Some(n)
    ensures MemoryAmount(key, s) == Ok((n, factor))
  {
  }

  /** Writing an amount and reading it back gives its size in bytes, when
      that size is positive and fits in 64 bits. */
  lemma {:induction false} MemoryRoundTrip(key: string, n: int, gigabytes: bool, systemMemory: int)
    requires 0 < n * Factor(gigabytes) <= ReconParams.MaxInt64
    ensures ParseMemoryValue(key, ShowMemory(n, gigabytes), systemMemory) == Ok(n * Factor(gigabytes))
  {
    assert 0 < n <= ReconParams.MaxInt64;
    AmountOfShown(key, n, gigabytes);
  }

  /** The wrap-around in the program: n megabytes with 2^44 < n < 2^44 + 2^43
      come to between 2^64 and 2^64 + 2^63 - 1 bytes, which wrap to a
      positive number and are accepted as that (17592186044417MB, that is
      2^44 + 1 megabytes, reads as one megabyte); the intended function
      rejects them. */
  lemma {:induction false} WrappedAmountAccepted(key: string, n: int, systemMemory: int)
    requires 0x1000_0000_0000 < n < 0x1800_0000_0000
    ensures ParseMemoryValueAsWritten(key, ShowMemory(n, false), systemMemory) == Ok(n * 0x10_0000 - TwoTo64)
    ensures ParseMemoryValue(key, ShowMemory(n, false), systemMemory) == Err(AssertionMessage)
  {
    AmountOfShown(key, n, false);
    var bytes := n * 0x10_0000;
    assert WrapInt64(bytes) == bytes - TwoTo64;
    WrappedAmount(key, ShowMemory(n, false), systemMemory, n, 0x10_0000, bytes - TwoTo64);
    OverflowRejected(key, ShowMemory(n, false), systemMemory, n, 0x10_0000);
  }

  /** The program's function on an amount whose size wraps to w > 0. */
  lemma {:induction false} WrappedAmount(key: string, text: string, systemMemory: int, v: int, factor: int, w: int)
    requires text != AutomaticText && MemoryAmount(key, text) == Ok((v, factor))
    requires w == WrapInt64(v * factor) && w > 0
    ensures ParseMemoryValueAsWritten(key, text, systemMemory) == Ok(w)
  {
  }

  /** The intended function on an amount too large for 64 bits. */
  lemma {:induction false} OverflowRejected(key: string, text: string, systemMemory: int, v: int, factor: int)
    requires text != AutomaticText && MemoryAmount(key, text) == Ok((v, factor))
    requires ReconParams.MaxInt64 < v * factor
    ensures ParseMemoryValue(key, text, systemMemory) == Err(AssertionMessage)
  {
  }
}
