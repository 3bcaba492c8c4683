/** Byte-order conversion (bonelab/endian.hpp).

    A value of a C++ arithmetic type is modelled by its object
    representation: the sequence of its `sizeof(T)` bytes in memory order. */
module Endian {

  newtype Byte = x: int | 0 <= x < 256

  datatype ByteOrder = LittleEndian | BigEndian

  /** Reference definition of byte reversal, independent of the loop below. */
  function Reverse(s: seq<Byte>): (r: seq<Byte>)
    ensures |r| == |s|
  {
    if s == [] then [] else Reverse(s[1..]) + [s[0]]
  }

  lemma {:induction false} ReverseIndex(s: seq<Byte>, i: int)
    requires 0 <= i < |s|
    ensures Reverse(s)[i] == s[|s| - 1 - i]
    decreases |s|
  {
    if i < |s| - 1 {
      ReverseIndex(s[1..], i);
    }
  }

  /** Reversing twice restores the value, so two swaps are the identity. */
  lemma {:induction false} ReverseInvolution(s: seq<Byte>)
    ensures Reverse(Reverse(s)) == s
  {
    forall i | 0 <= i < |s|
      ensures Reverse(Reverse(s))[i] == s[i]
    {
      ReverseIndex(Reverse(s), i);
      ReverseIndex(s, |s| - 1 - i);
    }
  }

  /** SwapBytes (endian.hpp:42-60) as written: the loop writes byte i and
      its mirror for i < size/2 into a fresh union.  For an odd size the
      middle output byte is never written; its indeterminate content is the
      parameter `middle`. */
  method SwapBytesAsWritten(value: seq<Byte>, middle: Byte) returns (out: seq<Byte>)
    ensures |out| == |value|
    ensures forall k :: 0 <= k < |value| && 2 * k + 1 != |value| ==> out[k] == value[|value| - 1 - k]
    ensures |value| % 2 == 0 ==> out == Reverse(value)
    ensures |value| % 2 == 1 ==> out == Reverse(value)[|value| / 2 := middle]
  {
    var size := |value|;
    out := seq(size, _ => middle);
    var i := 0;
    while i < size / 2
      invariant 0 <= i <= size / 2
      invariant |out| == size
      invariant forall k :: 0 <= k < i ==> out[k] == value[size - 1 - k]
      invariant forall k :: size - i <= k < size ==> out[k] == value[size - 1 - k]
      invariant forall k :: i <= k < size - i ==> out[k] == middle
    {
      out := out[i := value[size - 1 - i]][size - 1 - i := value[i]];
      i := i + 1;
    }
    forall k | 0 <= k < size
      ensures 2 * k + 1 != size ==> out[k] == Reverse(value)[k]
    {
      ReverseIndex(value, k);
    }
  }

  /** A one-byte value (a `char`) swapped as written comes back as the
      unwritten byte, not as itself. */
  method OneByteSwapAsWritten(v: Byte, middle: Byte) returns (out: seq<Byte>)
    ensures out == [middle]
    ensures middle != v ==> out != [v]
  {
    out := SwapBytesAsWritten([v], middle);
    assert Reverse([v]) == [v];
  }

  /** SwapBytes with the output starting as a copy of the input, so that
      the middle byte of an odd size stays in place: byte reversal for
      every size. */
  method SwapBytes(value: seq<Byte>) returns (out: seq<Byte>)
    ensures out == Reverse(value)
  {
    var size := |value|;
    out := value;
    var i := 0;
    while i < size / 2
      invariant 0 <= i <= size / 2
      invariant |out| == size
      invariant forall k :: 0 <= k < i ==> out[k] == value[size - 1 - k]
      invariant forall k :: size - i <= k < size ==> out[k] == value[size - 1 - k]
      invariant forall k :: i <= k < size - i ==> out[k] == value[k]
    {
      out := out[i := value[size - 1 - i]][size - 1 - i := value[i]];
      i := i + 1;
    }
    forall k | 0 <= k < size
      ensures out[k] == Reverse(value)[k]
    {
      ReverseIndex(value, k);
    }
  }

  /** What the loop as written leaves in the output: the bytes reversed,
      except that the middle byte of an odd size is the unwritten `middle`. */
  function SwappedAsWritten(value: seq<Byte>, middle: Byte): (r: seq<Byte>)
    ensures |r| == |value|
  {
    if |value| % 2 == 1 then Reverse(value)[|value| / 2 := middle] else Reverse(value)
  }

  /** EndianConversion on one value (endian.hpp:73-84): unchanged when the
      orders agree, otherwise the result of SwapBytes as written, whose
      middle byte for an odd size (a one-byte `char`) is the unwritten
      `middle`. */
  method ConvertValue(from: ByteOrder, to: ByteOrder, value: seq<Byte>, middle: Byte) returns (r: seq<Byte>)
    ensures from == to ==> r == value
    ensures from != to ==> |r| == |value|
    ensures from != to ==> forall k :: 0 <= k < |value| && 2 * k + 1 != |value| ==> r[k] == value[|value| - 1 - k]
    ensures from != to && |value| % 2 == 0 ==> r == Reverse(value)
    ensures from != to && |value| % 2 == 1 ==> r == Reverse(value)[|value| / 2 := middle]
  {
    if from == to {
      return value;
    }
    r := SwapBytesAsWritten(value, middle);
  }

  /** EndianConversion on a memory region (endian.hpp:90-108).  The region
      is a sequence of values of one type, each given by its bytes; the first
      `count` are swapped in place and every later one is left alone.  The
      unwritten middle byte of value k, for an odd size, is `middles[k]`. */
  method ConvertBuffer(from: ByteOrder, to: ByteOrder, buf: seq<seq<Byte>>, count: nat, middles: seq<Byte>)
    returns (r: seq<seq<Byte>>)
    requires count <= |buf| && |middles| == |buf|
    ensures |r| == |buf|
    ensures from == to ==> r == buf
    ensures from != to ==> forall k :: 0 <= k < count ==> r[k] == SwappedAsWritten(buf[k], middles[k])
    ensures from != to ==> forall k :: 0 <= k < count && |buf[k]| % 2 == 0 ==> r[k] == Reverse(buf[k])
    ensures r[count..] == buf[count..]
  {
    if from == to {
      return buf;
    }
    r := buf;
    var p := 0;
    while p < count
      invariant 0 <= p <= count
      invariant |r| == |buf|
      invariant forall k :: 0 <= k < p ==> r[k] == SwappedAsWritten(buf[k], middles[k])
      invariant r[p..] == buf[p..]
    {
      assert r[p] == buf[p];
      var swapped := SwapBytesAsWritten(r[p], middles[p]);
      r := r[p := swapped];
      p := p + 1;
    }
  }

  /** Converting there and back restores every value of even size (every
      arithmetic type wider than one byte), whatever the unwritten bytes. */
  method ConvertBackAndForth(from: ByteOrder, to: ByteOrder, value: seq<Byte>, m1: Byte, m2: Byte)
    returns (back: seq<Byte>)
    requires |value| % 2 == 0
    ensures back == value
  {
    var there := ConvertValue(from, to, value, m1);
    back := ConvertValue(to, from, there, m2);
    if from != to {
      ReverseInvolution(value);
    }
  }
}
