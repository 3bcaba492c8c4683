/** The geometry the projection-alignment tuner applies to the first and
    last projections before comparing them
    (tools/imagej/Align_Projections/src/Align_Projections.java,
    fiddleImages).

    The first projection is shifted so that the chosen centre of rotation
    lands on the middle column, rotated by minus the detector angle, and
    cropped to the borders.  The last projection, taken half a turn later,
    is flipped left to right and then receives the mirror image of those
    steps.  The pixel work of each step (bilinear translation and rotation,
    flipping, cropping) belongs to ImageJ and is kept symbolic: a step
    carries its parameters and its effect on the image size. */
module AlignGeometry {

  datatype Step =
    | Translate(dx: real, dy: real)
    | Rotate(degrees: real)
    | FlipHorizontal
    | Crop(x: int, y: int, width: int, height: int)

  /** The three border fields, as typed by the user: any integers. */
  datatype Borders = Borders(horizontal: int, top: int, bottom: int)

  /** The centre of rotation proposed when the tuner opens: the middle of
      the stack's width, or 50 when no image is open. */
  function InitialCentre(stackWidth: int, haveImage: bool): (c: real)
    ensures haveImage ==> 2.0 * c == (stackWidth - 1) as real
  {
    if haveImage then 0.5 * (stackWidth - 1) as real else 50.0
  }

  /** The horizontal shift that moves the centre of rotation to the middle
      column of the stack. */
  function AxisShift(stackWidth: int, centerPixel: real): (s: real)
    ensures centerPixel + s == InitialCentre(stackWidth, true)
  {
    0.5 * (stackWidth - 1) as real - centerPixel
  }

  /** No shift is applied exactly when the centre is the middle column. */
  lemma {:induction false} NoShiftIffCentred(stackWidth: int, centerPixel: real)
    ensures AxisShift(stackWidth, centerPixel) == 0.0 <==> centerPixel == InitialCentre(stackWidth, true)
  {
  }

  /** The region left after removing the borders from an image of the given
      size. */
  function BorderRegion(width: int, height: int, b: Borders): (s: Step)
    ensures s.Crop? && s.x == b.horizontal && s.y == b.top
    ensures s.x + s.width + b.horizontal == width && s.y + s.height + b.bottom == height
  {
    Crop(b.horizontal, b.top, width - 2 * b.horizontal, height - b.top - b.bottom)
  }

  /** The steps applied to the first projection. */
  function FirstSteps(width: int, height: int, stackWidth: int, centerPixel: real, angle: real, b: Borders): seq<Step>
  {
    [Translate(AxisShift(stackWidth, centerPixel), 0.0), Rotate(-angle), BorderRegion(width, height, b)]
  }

  /** The steps applied to the last projection. */
  function LastSteps(width: int, height: int, stackWidth: int, centerPixel: real, angle: real, b: Borders): seq<Step>
  {
    [FlipHorizontal, Translate(-AxisShift(stackWidth, centerPixel), 0.0), Rotate(angle), BorderRegion(width, height, b)]
  }

  /** The mirror image of a step about the vertical axis: shifts and
      rotations change sign, the rest is unchanged. */
  function Mirror(s: Step): (m: Step)
    ensures m.Translate? <==> s.Translate?
    ensures m.Rotate? <==> s.Rotate?
    ensures s.Crop? ==> m == s
  {
    match s
    case Translate(dx, dy) => Translate(-dx, dy)
    case Rotate(a) => Rotate(-a)
    case _ => s
  }

  function MirrorAll(steps: seq<Step>): (m: seq<Step>)
    ensures |m| == |steps|
    ensures forall i :: 0 <= i < |steps| ==> m[i] == Mirror(steps[i])
  {
    seq(|steps|, i requires 0 <= i < |steps| => Mirror(steps[i]))
  }

  /** Mirroring twice gives the step back. */
  lemma {:induction false} MirrorInvolution(s: Step)
    ensures Mirror(Mirror(s)) == s
  {
  }

  /** The last projection is flipped and then given the mirror image of the
      first projection's steps. */
  lemma {:induction false} LastMirrorsFirst(width: int, height: int, stackWidth: int, centerPixel: real, angle: real, b: Borders)
    ensures LastSteps(width, height, stackWidth, centerPixel, angle, b)
         == [FlipHorizontal] + MirrorAll(FirstSteps(width, height, stackWidth, centerPixel, angle, b))
  {
  }

  /** The image size after a sequence of steps: translation, rotation and
      flipping keep the canvas, a crop takes the size of its region. */
  function SizeAfter(steps: seq<Step>, size: (int, int)): (r: (int, int))
    ensures (forall i :: 0 <= i < |steps| ==> !steps[i].Crop?) ==> r == size
    decreases |steps|
  {
    if |steps| == 0 then size
    else
      var s := steps[|steps| - 1];
      var before := SizeAfter(steps[..|steps| - 1], size);
      if s.Crop? then (s.width, s.height) else before
  }

  /** Both projections come out the same size: the full size less the
      borders.  The region is computed from the size at the time of the
      crop, which the earlier steps have left unchanged. */
  lemma {:induction false} SameOutputSize(width: int, height: int, stackWidth: int, centerPixel: real, angle: real, b: Borders)
    ensures var first := FirstSteps(width, height, stackWidth, centerPixel, angle, b);
            var last := LastSteps(width, height, stackWidth, centerPixel, angle, b);
            SizeAfter(first[..2], (width, height)) == SizeAfter(last[..3], (width, height)) == (width, height)
    ensures SizeAfter(FirstSteps(width, height, stackWidth, centerPixel, angle, b), (width, height))
         == SizeAfter(LastSteps(width, height, stackWidth, centerPixel, angle, b), (width, height))
         == (width - 2 * b.horizontal, height - b.top - b.bottom)
  {
    var first := FirstSteps(width, height, stackWidth, centerPixel, angle, b);
    var last := LastSteps(width, height, stackWidth, centerPixel, angle, b);
    assert first[..3][..2] == first[..2];
    assert last[..4][..3] == last[..3];
  }

  /** A crop region lies inside an image, with at least one pixel. */
  predicate RegionInside(s: Step, width: int, height: int)
    requires s.Crop?
  {
    0 <= s.x && 0 <= s.y && 0 < s.width && 0 < s.height && s.x + s.width <= width && s.y + s.height <= height
  }

  /** The border region is a proper part of the image exactly when the
      borders are non-negative and leave at least one column and one row.
      Nothing in the tuner checks this. */
  lemma {:induction false} BorderRegionInside(width: int, height: int, b: Borders)
    ensures RegionInside(BorderRegion(width, height, b), width, height)
        <==> 0 <= b.horizontal && 0 <= b.top && 0 <= b.bottom
             && 2 * b.horizontal < width && b.top + b.bottom < height
  {
  }

  /** For example a horizontal border of 6 on a 10-pixel-wide image asks for
      a region of width -2. */
  lemma {:induction false} WideBorderExample()
    ensures BorderRegion(10, 10, Borders(6, 0, 0)).width == -2
    ensures !RegionInside(BorderRegion(10, 10, Borders(6, 0, 0)), 10, 10)
  {
  }
}
