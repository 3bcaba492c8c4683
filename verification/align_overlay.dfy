/** The colour overlay of the two aligned projections
    (tools/imagej/Align_Projections/src/Align_Projections.java,
    showOverlay).

    Each projection is stretched to 0..255 between its own minimum and
    maximum; the first becomes the red channel and the last both the green
    and the blue, so that where they agree the overlay is grey.  The
    stretch is computed here in exact arithmetic rather than in Java's
    single precision. */
module AlignOverlay {
  import PixelInterpolator

  /** The smallest and largest value of a non-empty image. */
  function MinOf(a: seq<real>): (m: real)
    requires |a| > 0
    ensures m in a && forall i :: 0 <= i < |a| ==> m <= a[i]
    decreases |a|
  {
    if |a| == 1 then a[0]
    else
      var rest := MinOf(a[..|a| - 1]);
      assert forall i :: 0 <= i < |a| - 1 ==> a[..|a| - 1][i] == a[i];
      if a[|a| - 1] < rest then a[|a| - 1] else rest
  }

  function MaxOf(a: seq<real>): (m: real)
    requires |a| > 0
    ensures m in a && forall i :: 0 <= i < |a| ==> a[i] <= m
    decreases |a|
  {
    if |a| == 1 then a[0]
    else
      var rest := MaxOf(a[..|a| - 1]);
      assert forall i :: 0 <= i < |a| - 1 ==> a[..|a| - 1][i] == a[i];
      if rest < a[|a| - 1] then a[|a| - 1] else rest
  }

  /** The stretched value before truncation: 255 (v - lo) / (hi - lo). */
  function Stretch(v: real, lo: real, hi: real): (x: real)
    requires lo < hi
  {
    255.0 * (v - lo) / (hi - lo)
  }

  /** The stretch, tied to its defining product. */
  lemma StretchProduct(v: real, lo: real, hi: real)
    requires lo < hi
    ensures Stretch(v, lo, hi) * (hi - lo) == 255.0 * (v - lo)
  {
  }

  /** The channel value of one pixel: the stretch truncated toward zero.  An
      image whose minimum equals its maximum has an infinite scale, whose
      product with the zero difference is NaN, which Java turns into 0. */
  function Component(v: real, lo: real, hi: real): (k: int)
    requires lo <= v <= hi
    ensures 0 <= k <= 255
  {
    if lo == hi then 0
    else
      StretchBounds(v, lo, hi);
      PixelInterpolator.Trunc(Stretch(v, lo, hi))
  }

  lemma {:induction false} StretchBounds(v: real, lo: real, hi: real)
    requires lo <= v <= hi && lo < hi
    ensures 0.0 <= Stretch(v, lo, hi) <= 255.0
  {
    var x, d := Stretch(v, lo, hi), hi - lo;
    StretchProduct(v, lo, hi);
    ProductOrder(0.0, x, d);
    ProductOrder(x, 255.0, d);
  }

  /** Dividing both sides of an inequality by a positive number. */
  lemma ProductOrder(x: real, y: real, d: real)
    requires d > 0.0 && x * d <= y * d
    ensures x <= y
  {
    if x > y {
      PositiveTimesPositive(x - y, d);
    }
  }

  lemma PositiveTimesPositive(x: real, y: real)
    requires x > 0.0 && y > 0.0
    ensures x * y > 0.0
  {
  }

  /** The stretch keeps the order of intensities ... */
  lemma {:induction false} ComponentMonotone(v: real, w: real, lo: real, hi: real)
    requires lo <= v <= w <= hi
    ensures Component(v, lo, hi) <= Component(w, lo, hi)
  {
    if lo != hi {
      StretchBounds(v, lo, hi);
      StretchBounds(w, lo, hi);
      StretchProduct(v, lo, hi);
      StretchProduct(w, lo, hi);
      ProductOrder(Stretch(v, lo, hi), Stretch(w, lo, hi), hi - lo);
    }
  }

  /** ... and sends the minimum to 0 and the maximum to 255. */
  lemma {:induction false} ComponentEnds(lo: real, hi: real)
    requires lo < hi
    ensures Component(lo, lo, hi) == 0 && Component(hi, lo, hi) == 255
  {
    ExactQuotient(255.0 * (lo - lo), hi - lo, 0.0);
    ExactQuotient(255.0 * (hi - lo), hi - lo, 255.0);
  }

  lemma ExactQuotient(p: real, d: real, q: real)
    requires d != 0.0 && p == q * d
    ensures p / d == q
  {
  }

  /** The packed RGB value: red in bits 16..23, green in 8..15, blue in
      0..7. */
  function Pack(red: int, greenBlue: int): int
  {
    red * 65536 + greenBlue * 256 + greenBlue
  }

  function Red(p: int): int { (p / 65536) % 256 }
  function Green(p: int): int { (p / 256) % 256 }
  function Blue(p: int): int { p % 256 }

  /** Packing two channel values and reading the channels back gives them
      again, the second one twice ... */
  lemma {:induction false} UnpackPack(f: int, l: int)
    requires 0 <= f < 256 && 0 <= l < 256
    ensures 0 <= Pack(f, l) < 16777216
    ensures Red(Pack(f, l)) == f && Green(Pack(f, l)) == l && Blue(Pack(f, l)) == l
  {
    var p := Pack(f, l);
    assert p == (f * 256 + l) * 256 + l;
    DivMod(p, f * 256 + l, l);
    DivMod(f * 256 + l, f, l);
    assert p / 65536 == (p / 256) / 256 by {
      NestedDiv(p);
    }
  }

  lemma DivMod(p: int, q: int, r: int)
    requires 0 <= r < 256 && p == q * 256 + r
    ensures p / 256 == q && p % 256 == r
  {
  }

  lemma DivMod65536(p: int, q: int, r: int)
    requires 0 <= r < 65536 && p == q * 65536 + r
    ensures p / 65536 == q && p % 65536 == r
  {
  }

  lemma NestedDiv(p: int)
    requires p >= 0
    ensures p / 65536 == (p / 256) / 256
  {
    var q, r := p / 256, p % 256;
    var q2, r2 := q / 256, q % 256;
    assert p == q2 * 65536 + (r2 * 256 + r);
    DivMod65536(p, q2, r2 * 256 + r);
  }

  /** ... and a 24-bit value whose green and blue agree is the packing of
      its red and green. */
  lemma {:induction false} PackUnpack(p: int)
    requires 0 <= p < 16777216 && Green(p) == Blue(p)
    ensures Pack(Red(p), Green(p)) == p
  {
    var q, r := p / 256, p % 256;
    var q2, r2 := q / 256, q % 256;
    NestedDiv(p);
    assert q2 < 256;
    assert Red(p) == q2 && Green(p) == r2 && Blue(p) == r;
    assert p == q2 * 65536 + r2 * 256 + r;
  }

  /** The overlay of two projections of the same size, pixel by pixel. */
  function Overlay(first: seq<real>, last: seq<real>): (o: seq<int>)
    requires |first| == |last|
    ensures |o| == |first|
  {
    if |first| == 0 then []
    else
      var lo1, hi1, lo2, hi2 := MinOf(first), MaxOf(first), MinOf(last), MaxOf(last);
      seq(|first|, i requires 0 <= i < |first| =>
        Pack(Component(first[i], lo1, hi1), Component(last[i], lo2, hi2)))
  }

  /** Every overlay pixel carries the first projection's stretched value in
      red and the last one's in green and blue. */
  lemma {:induction false} OverlayChannels(first: seq<real>, last: seq<real>, i: int)
    requires |first| == |last| && 0 <= i < |first|
    ensures var o := Overlay(first, last);
            Red(o[i]) == Component(first[i], MinOf(first), MaxOf(first))
            && Green(o[i]) == Blue(o[i]) == Component(last[i], MinOf(last), MaxOf(last))
  {
    UnpackPack(Component(first[i], MinOf(first), MaxOf(first)), Component(last[i], MinOf(last), MaxOf(last)));
  }

  /** A brighter pixel of the first projection is never less red. */
  lemma {:induction false} OverlayKeepsOrder(first: seq<real>, last: seq<real>, i: int, j: int)
    requires |first| == |last| && 0 <= i < |first| && 0 <= j < |first| && first[i] <= first[j]
    ensures Red(Overlay(first, last)[i]) <= Red(Overlay(first, last)[j])
  {
    OverlayChannels(first, last, i);
    OverlayChannels(first, last, j);
    ComponentMonotone(first[i], first[j], MinOf(first), MaxOf(first));
  }

  /** A projection's brightest pixel is full red, its darkest has none. */
  lemma {:induction false} OverlayRedEnds(first: seq<real>, last: seq<real>, i: int, j: int)
    requires |first| == |last| && 0 <= i < |first| && 0 <= j < |first|
    requires first[i] == MinOf(first) && first[j] == MaxOf(first) && first[i] < first[j]
    ensures Red(Overlay(first, last)[i]) == 0 && Red(Overlay(first, last)[j]) == 255
  {
    OverlayChannels(first, last, i);
    OverlayChannels(first, last, j);
    ComponentEnds(MinOf(first), MaxOf(first));
  }

  /** A constant projection contributes nothing to its channels. */
  lemma {:induction false} ConstantProjectionIsDark(first: seq<real>, last: seq<real>, i: int)
    requires |first| == |last| && 0 <= i < |first|
    requires forall j :: 0 <= j < |last| ==> last[j] == last[0]
    ensures Green(Overlay(first, last)[i]) == Blue(Overlay(first, last)[i]) == 0
  {
    OverlayChannels(first, last, i);
    assert MinOf(last) == MaxOf(last);
  }
}
