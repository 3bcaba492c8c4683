/** The configuration rules of the reconstruction
    (ReconConfiguration::VerifyConfiguration, source/ReconConfiguration.cpp:171-428).

    The rules run section by section over the configuration tree: checks
    that make the program die, and defaults written into the tree for
    absent keys.  Each section's keys are then checked against its
    whitelist, and finally the section names themselves.

    Three things the program takes from outside are parameters: the text a
    floating-point default is written as (ptree's translator for a lone
    double, the stream's default formatting for a tuple element), the value of
    a float-to-integer conversion whose result C++ leaves undefined, and
    which FFT libraries the program was built with. */
module ReconConfig {
  import opened Wrappers
  import opened PropTree
  import opened ReconParams
  import Text
  import Tuple
  import DataTypes
  import PixelInterpolator

  // ---------------------------------------------------------------------
  // Whitelists (ReconConfiguration.cpp:34-106)

  const SectionKeys: seq<string> :=
    ["Input", "Output", "Projections", "Volume", "Reconstruction", "Software"]
  const InputKeys: seq<string> :=
    ["RawProjectionsFile", "AttenuationProjectionsFile", "FilteredProjectionsFile",
     "DarkFieldFile", "BrightFieldFile", "PostScanBrightFieldFile"]
  const OutputKeys: seq<string> :=
    ["AttenuationProjectionsFile", "FilteredProjectionsFile", "VolumeFile",
     "AttenuationCorrectionsFile"]
  const ProjectionsKeys: seq<string> :=
    ["DataType", "Dimensions", "NumberOfProjections", "ProjectionAt180", "PixelSize",
     "CenterPixelU", "OffsetV", "ReverseRotation", "ProjectionStride"]
  const VolumeKeys: seq<string> := ["Dimensions", "VoxelSize", "Origin"]
  const ReconstructionKeys: seq<string> :=
    ["BadPixelCorrection", "FlatFieldBadThreshold", "DarkFieldBadThreshold",
     "BeamPowerCorrection", "BeamPowerIndependentVariable", "BeamPowerDecayConstantTerm",
     "BeamPowerDecayLinearTerm", "ProjectionBackgroundEdgeWidth", "PixelInterpolation",
     "CalculateCenterOfRotation", "SmoothingFilter", "SmoothingFilterRadius",
     "SmoothingFilterFrequencies", "ScalingFactor"]
  const SoftwareKeys: seq<string> :=
    ["Engine", "Threads", "MaximumVolumeMemory", "FilteringModule"]

  // ---------------------------------------------------------------------
  // Keys

  const RawProjectionsFile := Key("Input", "RawProjectionsFile")
  const InputAttenuationFile := Key("Input", "AttenuationProjectionsFile")
  const InputFilteredFile := Key("Input", "FilteredProjectionsFile")
  const PostScanBrightFieldFile := Key("Input", "PostScanBrightFieldFile")
  const OutputAttenuationFile := Key("Output", "AttenuationProjectionsFile")
  const OutputFilteredFile := Key("Output", "FilteredProjectionsFile")
  const VolumeFile := Key("Output", "VolumeFile")
  const ProjectionDimensions := Key("Projections", "Dimensions")
  const NumberOfProjections := Key("Projections", "NumberOfProjections")
  const ProjectionDataType := Key("Projections", "DataType")
  const PixelSize := Key("Projections", "PixelSize")
  const CenterPixelU := Key("Projections", "CenterPixelU")
  const OffsetV := Key("Projections", "OffsetV")
  const ReverseRotation := Key("Projections", "ReverseRotation")
  const ProjectionAt180 := Key("Projections", "ProjectionAt180")
  const VoxelSize := Key("Volume", "VoxelSize")
  const VolumeDimensions := Key("Volume", "Dimensions")
  const VolumeOrigin := Key("Volume", "Origin")
  const BadPixelCorrection := Key("Reconstruction", "BadPixelCorrection")
  const FlatFieldBadThreshold := Key("Reconstruction", "FlatFieldBadThreshold")
  const BeamPowerCorrection := Key("Reconstruction", "BeamPowerCorrection")
  const ConstantTerm := Key("Reconstruction", "BeamPowerDecayConstantTerm")
  const LinearTerm := Key("Reconstruction", "BeamPowerDecayLinearTerm")
  const EdgeWidth := Key("Reconstruction", "ProjectionBackgroundEdgeWidth")
  const PixelInterpolation := Key("Reconstruction", "PixelInterpolation")
  const SmoothingFilter := Key("Reconstruction", "SmoothingFilter")
  const SmoothingRadius := Key("Reconstruction", "SmoothingFilterRadius")
  const SmoothingFrequencies := Key("Reconstruction", "SmoothingFilterFrequencies")
  const Engine := Key("Software", "Engine")
  const Threads := Key("Software", "Threads")
  const MaximumVolumeMemory := Key("Software", "MaximumVolumeMemory")
  const FilteringModule := Key("Software", "FilteringModule")

  /** What the program takes from outside the tree: `showReal` is ptree's
      translator for a lone double, `showElement` the stream `<<` with its
      default precision that Tuple's `operator<<` (Tuple.hpp:384-391) uses
      for each element. */
  datatype Env = Env(
    showReal: real -> string,
    showElement: real -> string,
    unrepresentableIndex: int,
    vdsp: bool,
    fftw: bool)

  function ShowRealTuple(showReal: real -> string, t: seq<real>): string
  {
    if |t| == 0 then "" else TupleText.Show(showReal, t)
  }

  /** Extraction of a DataType_t: one known token, then only whitespace. */
  function ParseDataType(s: string): (r: Option<string>)
    ensures r.Some? ==> r.value in DataTypes.Tokens
  {
    var split := Text.SplitWord(s);
    if split.0 in DataTypes.Tokens && Text.SkipSpace(split.1) == [] then Some(split.0) else None
  }

  // ---------------------------------------------------------------------
  // Input and Output sections (ReconConfiguration.cpp:183-218)

  function InputCount(t: PTree): int
  {
    (if Has(t, RawProjectionsFile) then 1 else 0) +
    (if Has(t, InputAttenuationFile) then 1 else 0) +
    (if Has(t, InputFilteredFile) then 1 else 0)
  }

  const ExactlyOneInputMessage: string :=
    "Require exactly one of Input.RawProjectionsFile, Input.AttenuationProjectionsFile and Input.FilteredProjectionsFile"

  function CheckInput(t: PTree): (r: Result<()>)
    ensures r.Ok? <==> InputCount(t) == 1 && SectionKnown(t, "Input", InputKeys)
    ensures InputCount(t) != 1 ==> r == Err(ExactlyOneInputMessage)
  {
    if InputCount(t) != 1 then Err(ExactlyOneInputMessage)
    else CheckSection(t, "Input", InputKeys)
  }

  /** An input file that makes an output file pointless. */
  predicate OutputConflict(t: PTree)
  {
    (Has(t, InputAttenuationFile) && Has(t, OutputAttenuationFile)) ||
    (Has(t, InputFilteredFile) && Has(t, OutputFilteredFile)) ||
    (Has(t, InputFilteredFile) && Has(t, OutputAttenuationFile))
  }

  // The messages name both keys; the C++ message joins two literals that each
  // carry a space, hence the double space.
  const BothAttenuationMessage: string :=
    "Cannot specify both Input.AttenuationProjectionsFile and  Output.AttenuationProjectionsFile"
  const BothFilteredMessage: string :=
    "Cannot specify both Input.FilteredProjectionsFile and  Output.FilteredProjectionsFile"
  const FilteredAttenuationMessage: string :=
    "Cannot specify both Input.FilteredProjectionsFile and  Output.AttenuationProjectionsFile"

  function CheckOutput(t: PTree): (r: Result<()>)
    ensures r.Ok? <==> !OutputConflict(t) && SectionKnown(t, "Output", OutputKeys)
    ensures Has(t, InputAttenuationFile) && Has(t, OutputAttenuationFile) ==>
              r == Err(BothAttenuationMessage)
  {
    if Has(t, InputAttenuationFile) && Has(t, OutputAttenuationFile) then
      Err(BothAttenuationMessage)
    else if Has(t, InputFilteredFile) && Has(t, OutputFilteredFile) then
      Err(BothFilteredMessage)
    else if Has(t, InputFilteredFile) && Has(t, OutputAttenuationFile) then
      Err(FilteredAttenuationMessage)
    else CheckSection(t, "Output", OutputKeys)
  }

  // ---------------------------------------------------------------------
  // Text-valued options

  /** The key is present and holds one of the words. */
  predicate HasChoice(t: PTree, k: Key, words: seq<string>)
  {
    Has(t, k) && Lookup(t, k).value in words
  }

  /** OptionalParameter<std::string>(key, def) followed by a check that the
      value is one of the allowed words, dying with msg otherwise. */
  function OptionalChoice(t: PTree, k: Key, def: string, allowed: seq<string>, msg: string)
    : (r: Result<(PTree, string)>)
    requires def in allowed
    ensures r.Ok? <==> !Has(t, k) || Lookup(t, k).value in allowed
    ensures r.Err? ==> r.msg == msg
    ensures r.Ok? ==> r.value.1 in allowed && Lookup(r.value.0, k) == Some(r.value.1) && HasChoice(r.value.0, k, allowed)
    ensures r.Ok? && !Has(t, k) ==> r.value.1 == def
    ensures r.Ok? && Has(t, k) ==> r.value.0 == t
    ensures r.Ok? ==> Unchanged(t, r.value.0, {k}) && OnlySection(t, r.value.0, k.section)
  {
    var v := OptionalParameter(t, k, def, ShowString, ParseString).value;
    if v.1 !in allowed then Err(msg) else Ok(v)
  }

  // ---------------------------------------------------------------------
  // Projections section (ReconConfiguration.cpp:220-237)

  /** The tree after the section, with the projection dimensions and pixel
      size in (u, v) order, as the rest of the rules use them. */
  datatype Projections = Projections(tree: PTree, dims: seq<int>, pixelSize: seq<real>)

  /** The projection dimensions are present and the tuple reader asserts on
      them, as on "100,200x" (ReconParams.TrailingTextExample). */
  predicate DimensionsAssert(t: PTree)
  {
    Has(t, ProjectionDimensions) && IndexPairAsserts(Lookup(t, ProjectionDimensions).value)
  }

  /** The four required keys, the tuples reversed into (u, v) order. */
  method RequiredProjections(t: PTree) returns (r: Result<(seq<int>, seq<real>)>)
    ensures !Has(t, ProjectionDimensions) ==> r == Err(MissingMessage(ProjectionDimensions))
    ensures DimensionsAssert(t) ==> r == Err(AssertionMessage)
    ensures r.Ok? <==> TypedLookup(t, ProjectionDimensions, ParseIndexPair).Some? &&
                       TypedLookup(t, NumberOfProjections, ParseInt32).Some? &&
                       TypedLookup(t, ProjectionDataType, ParseDataType).Some? &&
                       TypedLookup(t, PixelSize, ParseRealPair).Some?
    ensures r.Ok? ==> |r.value.0| == 2 && |r.value.1| == 2
    ensures r.Ok? ==> TypedLookup(t, ProjectionDimensions, ParseIndexPair) == Some(Tuple.Reversed(r.value.0)) &&
                      TypedLookup(t, PixelSize, ParseRealPair) == Some(Tuple.Reversed(r.value.1))
  {
    var d :- RequireTuple(t, ProjectionDimensions, IndexPairAsserts, ParseIndexPair);
    var n :- RequireParameter(t, NumberOfProjections, ParseInt32);
    var ty :- RequireParameter(t, ProjectionDataType, ParseDataType);
    var ps :- RequireTuple(t, PixelSize, RealPairAsserts, ParseRealPair);
    Tuple.ReverseInvolution(d);
    Tuple.ReverseInvolution(ps);
    r := Ok((Tuple.Reversed(d), Tuple.Reversed(ps)));
  }

  /** The default detector centre column: the middle of a row. */
  function CentreDefault(dims: seq<int>): real
    requires |dims| == 2
  {
    (dims[1] - 1) as real / 2.0
  }

  /** The default vertical offset: the middle of a column, in length units. */
  function OffsetDefault(dims: seq<int>, pixel: seq<real>): real
    requires |dims| == 2 && |pixel| == 2
  {
    -pixel[0] * (dims[0] - 1) as real / 2.0
  }

  const GeometryKeys: set<Key> := {CenterPixelU, OffsetV}
  const RotationKeys: set<Key> := {ReverseRotation, ProjectionAt180}

  /** The detector centre column and the vertical offset, each defaulted
      to the given value. */
  method ProjectionGeometry(t: PTree, env: Env, centre: real, offset: real) returns (r: Result<PTree>)
    ensures !Has(t, CenterPixelU) && r.Ok? ==> Lookup(r.value, CenterPixelU) == Some(env.showReal(centre))
    ensures !Has(t, OffsetV) && r.Ok? ==> Lookup(r.value, OffsetV) == Some(env.showReal(offset))
    ensures r.Ok? <==> (Has(t, CenterPixelU) ==> TypedLookup(t, CenterPixelU, Text.ParseReal).Some?) &&
                       (Has(t, OffsetV) ==> TypedLookup(t, OffsetV, Text.ParseReal).Some?)
    ensures r.Ok? ==> Has(r.value, CenterPixelU) && Has(r.value, OffsetV)
    ensures r.Ok? ==> Unchanged(t, r.value, GeometryKeys) &&
                      OnlySection(t, r.value, "Projections")
  {
    var c :- OptionalParameter(t, CenterPixelU, centre, env.showReal, Text.ParseReal);
    var o :- OptionalParameter(c.0, OffsetV, offset, env.showReal, Text.ParseReal);
    UnchangedKeeps(c.0, o.0, {OffsetV}, CenterPixelU);
    UnchangedKeeps(t, c.0, {CenterPixelU}, OffsetV);
    UnchangedTrans(t, c.0, o.0, {CenterPixelU}, {OffsetV}, GeometryKeys, "Projections");
    r := Ok(o.0);
  }

  const TrueText: string := "True"
  const FalseText: string := "False"
  const RotationChoices: seq<string> := [TrueText, FalseText]

  /** The program names the wrong section in this message. */
  const ReverseRotationMessage: string := "Unrecognized value for Reconstruction.ReverseRotation"

  /** ReverseRotation must read True or False (default False);
      ProjectionAt180 defaults to True. */
  method ProjectionRotation(t: PTree) returns (r: Result<PTree>)
    ensures r.Ok? <==> !Has(t, ReverseRotation) || Lookup(t, ReverseRotation).value in RotationChoices
    ensures r.Err? ==> r.msg == ReverseRotationMessage
    ensures r.Ok? ==> HasChoice(r.value, ReverseRotation, RotationChoices)
    ensures r.Ok? ==> Has(r.value, ProjectionAt180)
    ensures r.Ok? && !Has(t, ReverseRotation) ==> Lookup(r.value, ReverseRotation) == Some(FalseText)
    ensures r.Ok? && !Has(t, ProjectionAt180) ==> Lookup(r.value, ProjectionAt180) == Some(TrueText)
    ensures r.Ok? && Has(t, ProjectionAt180) ==> Lookup(r.value, ProjectionAt180) == Lookup(t, ProjectionAt180)
    ensures r.Ok? ==> Unchanged(t, r.value, RotationKeys) &&
                      OnlySection(t, r.value, "Projections")
  {
    var rr :- OptionalChoice(t, ReverseRotation, FalseText, RotationChoices, ReverseRotationMessage);
    var p := OptionalParameter(rr.0, ProjectionAt180, TrueText, ShowString, ParseString).value;
    UnchangedKeeps(rr.0, p.0, {ProjectionAt180}, ReverseRotation);
    UnchangedTrans(t, rr.0, p.0, {ReverseRotation}, {ProjectionAt180}, RotationKeys, "Projections");
    r := Ok(p.0);
  }

  const ProjectionsDefaulted: set<Key> := {CenterPixelU, OffsetV, ReverseRotation, ProjectionAt180}

  /** The geometry keys are not the rotation keys (their names differ in length). */
  lemma {:induction false} GeometryNotRotation()
    ensures CenterPixelU !in RotationKeys && OffsetV !in RotationKeys
  {
    assert |CenterPixelU.name| == 12 && |OffsetV.name| == 7;
    assert |ReverseRotation.name| == 15 && |ProjectionAt180.name| == 15;
  }

  /** The defaults the section writes, given the projection geometry. */
  method ProjectionDefaults(t: PTree, env: Env, dims: seq<int>, pixel: seq<real>) returns (r: Result<PTree>)
    requires |dims| == 2 && |pixel| == 2
    ensures !Has(t, CenterPixelU) && r.Ok? ==> Lookup(r.value, CenterPixelU) == Some(env.showReal(CentreDefault(dims)))
    ensures !Has(t, OffsetV) && r.Ok? ==> Lookup(r.value, OffsetV) == Some(env.showReal(OffsetDefault(dims, pixel)))
    ensures r.Ok? ==> HasChoice(r.value, ReverseRotation, RotationChoices)
    ensures r.Ok? ==> Has(r.value, CenterPixelU) && Has(r.value, OffsetV) && Has(r.value, ProjectionAt180)
    ensures r.Ok? && !Has(t, ProjectionAt180) ==> Lookup(r.value, ProjectionAt180) == Some(TrueText)
    ensures r.Ok? ==> Unchanged(t, r.value, ProjectionsDefaulted) &&
                      OnlySection(t, r.value, "Projections")
  {
    var g :- ProjectionGeometry(t, env, CentreDefault(dims), OffsetDefault(dims, pixel));
    var rot :- ProjectionRotation(g);
    GeometryNotRotation();
    UnchangedKeeps(g, rot, RotationKeys, CenterPixelU);
    UnchangedKeeps(g, rot, RotationKeys, OffsetV);
    UnchangedTrans(t, g, rot, GeometryKeys, RotationKeys, ProjectionsDefaulted, "Projections");
    r := Ok(rot);
  }

  method CheckProjections(t: PTree, env: Env) returns (r: Result<Projections>)
    ensures !Has(t, ProjectionDimensions) ==> r == Err(MissingMessage(ProjectionDimensions))
    ensures DimensionsAssert(t) ==> r == Err(AssertionMessage)
    ensures r.Ok? ==> |r.value.dims| == 2 && |r.value.pixelSize| == 2
    ensures r.Ok? ==> TypedLookup(t, ProjectionDimensions, ParseIndexPair) == Some(Tuple.Reversed(r.value.dims)) &&
                      TypedLookup(t, PixelSize, ParseRealPair) == Some(Tuple.Reversed(r.value.pixelSize)) &&
                      TypedLookup(t, NumberOfProjections, ParseInt32).Some? &&
                      TypedLookup(t, ProjectionDataType, ParseDataType).Some?
    ensures r.Ok? ==> HasChoice(r.value.tree, ReverseRotation, RotationChoices)
    ensures r.Ok? ==> Has(r.value.tree, CenterPixelU) && Has(r.value.tree, OffsetV) &&
                      Has(r.value.tree, ProjectionAt180)
    ensures r.Ok? ==> Unchanged(t, r.value.tree, ProjectionsDefaulted) &&
                      OnlySection(t, r.value.tree, "Projections")
    ensures r.Ok? ==> SectionKnown(r.value.tree, "Projections", ProjectionsKeys)
  {
    var dp :- RequiredProjections(t);
    var d :- ProjectionDefaults(t, env, dp.0, dp.1);
    var ok :- CheckSection(d, "Projections", ProjectionsKeys);
    r := Ok(Projections(d, dp.0, dp.1));
  }

  // ---------------------------------------------------------------------
  // Volume section (ReconConfiguration.cpp:239-269)

  const VolumeDefaulted: set<Key> := {VoxelSize, VolumeDimensions, VolumeOrigin}
  const SpacingKeys: set<Key> := {VoxelSize}
  const ShapeKeys: set<Key> := {VolumeDimensions, VolumeOrigin}

  /** The voxel size: defaulted to the pixel size when pixels are square,
      required otherwise.  Returned in (x, y, z) order. */
  method VolumeSpacing(t: PTree, env: Env, pixel: seq<real>) returns (r: Result<(PTree, seq<real>)>)
    requires |pixel| == 2
    ensures pixel[0] != pixel[1] ==> (r.Ok? <==> TypedLookup(t, VoxelSize, ParseRealTriple).Some?)
    ensures pixel[0] != pixel[1] && !Has(t, VoxelSize) ==> r == Err(MissingMessage(VoxelSize))
    ensures Has(t, VoxelSize) && RealTripleAsserts(Lookup(t, VoxelSize).value) ==> r == Err(AssertionMessage)
    ensures pixel[0] == pixel[1] && !Has(t, VoxelSize) ==> r.Ok? && r.value.1 == [pixel[0], pixel[0], pixel[0]]
    ensures r.Ok? ==> |r.value.1| == 3 && Has(r.value.0, VoxelSize)
    ensures r.Ok? ==> Unchanged(t, r.value.0, SpacingKeys) && OnlySection(t, r.value.0, "Volume")
  {
    if pixel[0] == pixel[1] {
      var def := Tuple.Reversed([pixel[0], pixel[0], pixel[0]]);
      Tuple.ReverseInvolution([pixel[0], pixel[0], pixel[0]]);
      var v :- OptionalTuple(t, VoxelSize, def, x => ShowRealTuple(env.showElement, x), RealTripleAsserts, ParseRealTriple);
      r := Ok((v.0, Tuple.Reversed(v.1)));
    } else {
      var v :- RequireTuple(t, VoxelSize, RealTripleAsserts, ParseRealTriple);
      r := Ok((t, Tuple.Reversed(v)));
    }
  }

  /** The volume origin default: the volume centred on the rotation axis. */
  function CentredOrigin(dims: seq<int>, spacing: seq<real>): (o: seq<real>)
    requires |dims| == 3 && |spacing| == 3
    ensures |o| == 3
    ensures forall i :: 0 <= i < 3 ==> o[i] + (dims[i] - 1) as real * spacing[i] == -o[i]
  {
    [-0.5 * (dims[0] - 1) as real * spacing[0],
     -0.5 * (dims[1] - 1) as real * spacing[1],
     -0.5 * (dims[2] - 1) as real * spacing[2]]
  }

  /** The tree after the section, with the volume dimensions and voxel size
      in (x, y, z) order when a volume is written (empty otherwise). */
  datatype Volume = Volume(tree: PTree, dims: seq<int>, spacing: seq<real>)

  lemma {:induction false} SpacingNotShape()
    ensures VoxelSize !in ShapeKeys && VolumeOrigin !in SpacingKeys && VolumeDimensions !in SpacingKeys
  {
    assert |VoxelSize.name| == 9 && |VolumeDimensions.name| == 10 && |VolumeOrigin.name| == 6;
  }

  /** int64_t(x) for a double x: truncation toward zero.  C++ leaves the
      conversion undefined when the result does not fit in 64 bits; that
      value is the environment's. */
  function ToIndex(env: Env, x: real): (k: int)
    ensures MinInt64 <= k <= MaxInt64 || k == env.unrepresentableIndex
  {
    var k := PixelInterpolator.Trunc(x);
    if MinInt64 <= k <= MaxInt64 then k else env.unrepresentableIndex
  }

  /** One default volume dimension: the detector's extent n * size over the
      voxel spacing, plus one half, converted to int64_t.  A zero spacing
      gives an infinity or NaN, whose conversion is undefined too. */
  function DefaultExtent(env: Env, n: int, size: real, spacing: real): int
  {
    if spacing == 0.0 then env.unrepresentableIndex
    else ToIndex(env, n as real * size / spacing + 0.5)
  }

  /** The default volume dimensions (ReconConfiguration.cpp:254-257) in
      (x, y, z) order.  The third is taken from the detector's second
      dimension, as the second is. */
  function DefaultVolumeDims(env: Env, dims: seq<int>, pixel: seq<real>, spacing: seq<real>): (d: seq<int>)
    requires |dims| == 2 && |pixel| == 2 && |spacing| == 3
    ensures |d| == 3
  {
    [DefaultExtent(env, dims[0], pixel[0], spacing[0]),
     DefaultExtent(env, dims[1], pixel[1], spacing[1]),
     DefaultExtent(env, dims[1], pixel[1], spacing[2])]
  }

  /** A default dimension is the whole number of voxels nearest to the
      detector's extent (halves rounding up), whenever it fits. */
  lemma {:induction false} DefaultExtentNearest(env: Env, n: int, size: real, spacing: real)
    requires spacing != 0.0
    requires -0.5 <= n as real * size / spacing < MaxInt64 as real - 0.5
    ensures var d := DefaultExtent(env, n, size, spacing) as real;
            d - 0.5 <= n as real * size / spacing < d + 0.5
  {
    var q := n as real * size / spacing;
    var k := (q + 0.5).Floor;
    assert PixelInterpolator.Trunc(q + 0.5) == k;
    assert 0 <= k <= MaxInt64;
  }

  /** With square pixels and voxels of the pixel size, the default volume
      has the detector's width, then its height as both the second and the
      third dimension. */
  lemma {:induction false} DefaultDimsOfSquarePixels(env: Env, dims: seq<int>, p: real)
    requires |dims| == 2 && p != 0.0
    requires 0 <= dims[0] < MaxInt64 && 0 <= dims[1] < MaxInt64
    ensures DefaultVolumeDims(env, dims, [p, p], [p, p, p]) == [dims[0], dims[1], dims[1]]
  {
    ExtentOfOwnSize(env, dims[0], p);
    ExtentOfOwnSize(env, dims[1], p);
  }

  lemma {:induction false} ExtentOfOwnSize(env: Env, n: int, p: real)
    requires p != 0.0 && 0 <= n < MaxInt64
    ensures DefaultExtent(env, n, p, p) == n
  {
    assert n as real * p / p == n as real;
    assert (n as real + 0.5).Floor == n;
  }

  /** The volume dimensions (default from the detector) and the origin
      (default centred); both returned in (x, y, z) order. */
  method VolumeGeometry(t: PTree, env: Env, proj: Projections, spacing: seq<real>)
    returns (r: Result<Volume>)
    requires |proj.dims| == 2 && |proj.pixelSize| == 2 && |spacing| == 3
    ensures r.Ok? <==> (Has(t, VolumeDimensions) ==> TypedLookup(t, VolumeDimensions, ParseIndexTriple).Some?) &&
                       (Has(t, VolumeOrigin) ==> TypedLookup(t, VolumeOrigin, ParseRealTriple).Some?)
    ensures Has(t, VolumeDimensions) && IndexTripleAsserts(Lookup(t, VolumeDimensions).value) ==>
              r == Err(AssertionMessage)
    ensures (!Has(t, VolumeDimensions) || TypedLookup(t, VolumeDimensions, ParseIndexTriple).Some?) &&
            Has(t, VolumeOrigin) && RealTripleAsserts(Lookup(t, VolumeOrigin).value) ==>
              r == Err(AssertionMessage)
    ensures r.Ok? && !Has(t, VolumeDimensions) ==>
              r.value.dims == DefaultVolumeDims(env, proj.dims, proj.pixelSize, spacing) &&
              Lookup(r.value.tree, VolumeDimensions) == Some(ShowIndexTuple(Tuple.Reversed(r.value.dims)))
    ensures r.Ok? && Has(t, VolumeDimensions) ==>
              TypedLookup(t, VolumeDimensions, ParseIndexTriple) == Some(Tuple.Reversed(r.value.dims))
    ensures r.Ok? ==> Has(r.value.tree, VolumeDimensions) && Has(r.value.tree, VolumeOrigin) &&
                      |r.value.dims| == 3 && r.value.spacing == spacing
    ensures r.Ok? && !Has(t, VolumeOrigin) ==>
              Lookup(r.value.tree, VolumeOrigin) ==
              Some(ShowRealTuple(env.showElement, Tuple.Reversed(CentredOrigin(r.value.dims, spacing))))
    ensures r.Ok? ==> Unchanged(t, r.value.tree, ShapeKeys) &&
                      OnlySection(t, r.value.tree, "Volume")
  {
    var dd := DefaultVolumeDims(env, proj.dims, proj.pixelSize, spacing);
    Tuple.ReverseInvolution(dd);
    var vd :- OptionalTuple(t, VolumeDimensions, Tuple.Reversed(dd), ShowIndexTuple,
                            IndexTripleAsserts, ParseIndexTriple);
    var dims := Tuple.Reversed(vd.1);
    Tuple.ReverseInvolution(vd.1);
    var origin := Tuple.Reversed(CentredOrigin(dims, spacing));
    UnchangedKeeps(t, vd.0, {VolumeDimensions}, VolumeOrigin);
    var o :- OptionalTuple(vd.0, VolumeOrigin, origin, x => ShowRealTuple(env.showElement, x),
                           RealTripleAsserts, ParseRealTriple);
    UnchangedKeeps(vd.0, o.0, {VolumeOrigin}, VolumeDimensions);
    UnchangedTrans(t, vd.0, o.0, {VolumeDimensions}, {VolumeOrigin}, ShapeKeys, "Volume");
    r := Ok(Volume(o.0, dims, spacing));
  }

  /** The defaults written when a volume is to be reconstructed. */
  method VolumeDefaults(t: PTree, env: Env, proj: Projections) returns (r: Result<Volume>)
    requires |proj.dims| == 2 && |proj.pixelSize| == 2
    ensures proj.pixelSize[0] != proj.pixelSize[1] && !Has(t, VoxelSize) ==> r == Err(MissingMessage(VoxelSize))
    ensures Has(t, VoxelSize) && RealTripleAsserts(Lookup(t, VoxelSize).value) ==> r == Err(AssertionMessage)
    ensures r.Ok? && !Has(t, VolumeDimensions) ==>
              |r.value.spacing| == 3 &&
              r.value.dims == DefaultVolumeDims(env, proj.dims, proj.pixelSize, r.value.spacing)
    ensures r.Ok? ==> Has(r.value.tree, VoxelSize) && Has(r.value.tree, VolumeDimensions) &&
                      Has(r.value.tree, VolumeOrigin) && |r.value.dims| == 3 && |r.value.spacing| == 3
    ensures r.Ok? && !Has(t, VolumeOrigin) ==>
              Lookup(r.value.tree, VolumeOrigin) ==
              Some(ShowRealTuple(env.showElement, Tuple.Reversed(CentredOrigin(r.value.dims, r.value.spacing))))
    ensures r.Ok? ==> Unchanged(t, r.value.tree, VolumeDefaulted) && OnlySection(t, r.value.tree, "Volume")
  {
    var vs :- VolumeSpacing(t, env, proj.pixelSize);
    SpacingNotShape();
    UnchangedKeeps(t, vs.0, SpacingKeys, VolumeOrigin);
    UnchangedKeeps(t, vs.0, SpacingKeys, VolumeDimensions);
    var g :- VolumeGeometry(vs.0, env, proj, vs.1);
    UnchangedKeeps(vs.0, g.tree, ShapeKeys, VoxelSize);
    UnchangedTrans(t, vs.0, g.tree, SpacingKeys, ShapeKeys, VolumeDefaulted, "Volume");
    r := Ok(g);
  }

  method CheckVolume(t: PTree, env: Env, proj: Projections) returns (r: Result<Volume>)
    requires |proj.dims| == 2 && |proj.pixelSize| == 2
    ensures !Has(t, VolumeFile) ==> (r.Ok? <==> SectionKnown(t, "Volume", VolumeKeys))
    ensures !Has(t, VolumeFile) && r.Ok? ==> r.value.tree == t
    ensures Has(t, VolumeFile) && proj.pixelSize[0] != proj.pixelSize[1] && !Has(t, VoxelSize) ==>
              r == Err(MissingMessage(VoxelSize))
    ensures Has(t, VolumeFile) && Has(t, VoxelSize) && RealTripleAsserts(Lookup(t, VoxelSize).value) ==>
              r == Err(AssertionMessage)
    ensures r.Ok? && Has(t, VolumeFile) && !Has(t, VolumeDimensions) ==>
              |r.value.spacing| == 3 &&
              r.value.dims == DefaultVolumeDims(env, proj.dims, proj.pixelSize, r.value.spacing)
    ensures r.Ok? && Has(t, VolumeFile) ==>
              Has(r.value.tree, VoxelSize) && Has(r.value.tree, VolumeDimensions) &&
              Has(r.value.tree, VolumeOrigin) && |r.value.dims| == 3 && |r.value.spacing| == 3
    ensures r.Ok? && Has(t, VolumeFile) && !Has(t, VolumeOrigin) ==>
              Lookup(r.value.tree, VolumeOrigin) ==
              Some(ShowRealTuple(env.showElement, Tuple.Reversed(CentredOrigin(r.value.dims, r.value.spacing))))
    ensures r.Ok? ==> Unchanged(t, r.value.tree, VolumeDefaulted) && OnlySection(t, r.value.tree, "Volume")
    ensures r.Ok? ==> SectionKnown(r.value.tree, "Volume", VolumeKeys)
  {
    if !Has(t, VolumeFile) {
      var ok :- CheckSection(t, "Volume", VolumeKeys);
      r := Ok(Volume(t, [], []));
    } else {
      var v :- VolumeDefaults(t, env, proj);
      var ok :- CheckSection(v.tree, "Volume", VolumeKeys);
      r := Ok(v);
    }
  }


  // ---------------------------------------------------------------------
  // Reconstruction section (ReconConfiguration.cpp:271-368)

  const AveragingText: string := "Averaging"
  const NoneText: string := "None"
  const BadPixelChoices: seq<string> := [AveragingText, NoneText]
  const BadPixelMessage: string := "Unrecognized value for Reconstruction.BadPixelCorrection"
  const BadPixelKeys: set<Key> := {BadPixelCorrection, FlatFieldBadThreshold}

  /** Bad pixel correction (raw input only): Averaging or None, default
      Averaging; unless None, the flat-field threshold defaults to 10. */
  method BadPixel(t: PTree) returns (r: Result<PTree>)
    ensures Has(t, BadPixelCorrection) && Lookup(t, BadPixelCorrection).value !in BadPixelChoices ==>
              r == Err(BadPixelMessage)
    ensures r.Err? ==> r.msg in {BadPixelMessage, ParseErrorMessage(FlatFieldBadThreshold)}
    ensures r.Ok? ==> HasChoice(r.value, BadPixelCorrection, BadPixelChoices)
    ensures r.Ok? && Lookup(r.value, BadPixelCorrection) == Some(AveragingText) ==>
              TypedLookup(r.value, FlatFieldBadThreshold, ParseInt32).Some?
    ensures r.Ok? && !Has(t, FlatFieldBadThreshold) && Lookup(r.value, BadPixelCorrection) == Some(AveragingText) ==>
              Lookup(r.value, FlatFieldBadThreshold) == Some(Text.IntToString(10))
    ensures r.Ok? ==> Unchanged(t, r.value, BadPixelKeys) &&
                      OnlySection(t, r.value, "Reconstruction")
  {
    var b :- OptionalChoice(t, BadPixelCorrection, AveragingText, BadPixelChoices, BadPixelMessage);
    if b.1 == NoneText {
      r := Ok(b.0);
      return;
    }
    UnchangedKeeps(t, b.0, {BadPixelCorrection}, FlatFieldBadThreshold);
    var f :- OptionalParameter(b.0, FlatFieldBadThreshold, 10, Text.IntToString, ParseInt32);
    IntDefaultsReadBack(10);
    UnchangedKeeps(b.0, f.0, {FlatFieldBadThreshold}, BadPixelCorrection);
    UnchangedTrans(t, b.0, f.0, {BadPixelCorrection}, {FlatFieldBadThreshold}, BadPixelKeys, "Reconstruction");
    r := Ok(f.0);
  }

  const ZeroEdgeText: string := "ZeroProjectionEdgeAttenuation"
  const ConstantTotalText: string := "ConstantTotalAttenuation"
  const ManualText: string := "Manual"
  const BrightFieldText: string := "BeforeAndAfterBrightField"
  const NullEdgeText: string := "NullProjectionEdge"
  const BeamPowerChoices: seq<string> :=
    [ConstantTotalText, ManualText, BrightFieldText, NullEdgeText, NoneText]
  const BeamPowerMessage: string := "Unrecognized value for Reconstruction.BeamPowerCorrection"
  const ManualMessage: string :=
    "Reconstruction.BeamPowerCorrection=Manual requires that a value be set for Reconstruction.BeamPowerDecayLinearTerm"
  const BrightFieldMessage: string :=
    "Reconstruction.BeamPowerCorrection=BeforeAndAfterBrightField requires that a value be set for Input.PostScanBrightFieldFile"
  const NullEdgeMessage: string :=
    "Reconstruction.BeamPowerDecayConstantTerm cannot be specified with Reconstruction.BeamPowerCorrection=NullProjectionEdge"
  const BeamPowerNameKeys: set<Key> := {BeamPowerCorrection}
  const BeamPowerTermKeys: set<Key> := {ConstantTerm, EdgeWidth}
  const BeamPowerKeys: set<Key> := {BeamPowerCorrection, ConstantTerm, EdgeWidth}

  /** The beam power correction's name, defaulted to None; the old name
      ZeroProjectionEdgeAttenuation is rewritten in the tree to its new one. */
  method BeamPowerOption(t: PTree) returns (r: Result<PTree>)
    ensures r.Ok? <==> !Has(t, BeamPowerCorrection) ||
                       Lookup(t, BeamPowerCorrection).value in BeamPowerChoices ||
                       Lookup(t, BeamPowerCorrection).value == ZeroEdgeText
    ensures r.Err? ==> r.msg == BeamPowerMessage
    ensures r.Ok? ==> HasChoice(r.value, BeamPowerCorrection, BeamPowerChoices)
    ensures r.Ok? && !Has(t, BeamPowerCorrection) ==> Lookup(r.value, BeamPowerCorrection) == Some(NoneText)
    ensures r.Ok? && Lookup(t, BeamPowerCorrection) == Some(ZeroEdgeText) ==>
              Lookup(r.value, BeamPowerCorrection) == Some(NullEdgeText)
    ensures r.Ok? && Has(t, BeamPowerCorrection) && Lookup(t, BeamPowerCorrection).value != ZeroEdgeText ==>
              r.value == t
    ensures r.Ok? ==> Unchanged(t, r.value, BeamPowerNameKeys) && OnlySection(t, r.value, "Reconstruction")
  {
    var b := OptionalParameter(t, BeamPowerCorrection, NoneText, ShowString, ParseString).value;
    var u := b.0;
    if b.1 == ZeroEdgeText {
      PutKey(b.0, BeamPowerCorrection, NullEdgeText);
      u := Put(b.0, KeyPath(BeamPowerCorrection), NullEdgeText);
      UnchangedTrans(t, b.0, u, BeamPowerNameKeys, BeamPowerNameKeys, BeamPowerNameKeys, "Reconstruction");
    }
    if Lookup(u, BeamPowerCorrection).value !in BeamPowerChoices {
      return Err(BeamPowerMessage);
    }
    r := Ok(u);
  }

  /** The constant term of the decay, defaulted to zero. */
  function ConstantTermDefault(t: PTree, env: Env): (r: Result<(PTree, real)>)
    ensures r.Ok? <==> !Has(t, ConstantTerm) || TypedLookup(t, ConstantTerm, Text.ParseReal).Some?
    ensures r.Err? ==> r.msg == ParseErrorMessage(ConstantTerm)
    ensures r.Ok? && !Has(t, ConstantTerm) ==> Lookup(r.value.0, ConstantTerm) == Some(env.showReal(0.0))
    ensures r.Ok? ==> Has(r.value.0, ConstantTerm)
    ensures r.Ok? ==> Unchanged(t, r.value.0, {ConstantTerm}) && OnlySection(t, r.value.0, "Reconstruction")
  {
    OptionalParameter(t, ConstantTerm, 0.0, env.showReal, Text.ParseReal)
  }

  /** Manual: the linear term must be given (and read as a number). */
  method ManualTerms(t: PTree, env: Env) returns (r: Result<PTree>)
    ensures TypedLookup(t, LinearTerm, Text.ParseReal).None? ==> r.Err?
    ensures r.Err? ==> r.msg in {ManualMessage, ParseErrorMessage(ConstantTerm)}
    ensures r.Ok? ==> Has(r.value, ConstantTerm) && TypedLookup(r.value, LinearTerm, Text.ParseReal).Some?
    ensures r.Ok? && Has(t, ConstantTerm) ==> TypedLookup(t, ConstantTerm, Text.ParseReal).Some?
    ensures r.Ok? && !Has(t, ConstantTerm) ==> Lookup(r.value, ConstantTerm) == Some(env.showReal(0.0))
    ensures r.Ok? ==> Unchanged(t, r.value, BeamPowerTermKeys) && OnlySection(t, r.value, "Reconstruction")
  {
    var c :- ConstantTermDefault(t, env);
    LinearNotConstant();
    UnchangedKeeps(t, c.0, {ConstantTerm}, LinearTerm);
    if TypedLookup(c.0, LinearTerm, Text.ParseReal).None? {
      return Err(ManualMessage);
    }
    r := Ok(c.0);
  }

  /** BeforeAndAfterBrightField: a post-scan bright field must be given. */
  method BrightFieldTerms(t: PTree, env: Env) returns (r: Result<PTree>)
    ensures !Has(t, PostScanBrightFieldFile) ==> r.Err?
    ensures r.Err? ==> r.msg in {BrightFieldMessage, ParseErrorMessage(ConstantTerm)}
    ensures r.Ok? ==> Has(r.value, ConstantTerm) && Has(r.value, PostScanBrightFieldFile)
    ensures r.Ok? && Has(t, ConstantTerm) ==> TypedLookup(t, ConstantTerm, Text.ParseReal).Some?
    ensures r.Ok? && !Has(t, ConstantTerm) ==> Lookup(r.value, ConstantTerm) == Some(env.showReal(0.0))
    ensures r.Ok? ==> Unchanged(t, r.value, BeamPowerTermKeys) && OnlySection(t, r.value, "Reconstruction")
  {
    var c :- ConstantTermDefault(t, env);
    LinearNotConstant();
    UnchangedKeeps(t, c.0, {ConstantTerm}, PostScanBrightFieldFile);
    if !Has(c.0, PostScanBrightFieldFile) {
      return Err(BrightFieldMessage);
    }
    r := Ok(c.0);
  }

  /** NullProjectionEdge: the edge width defaults to 10 and no constant
      term may be given. */
  method NullEdgeTerms(t: PTree) returns (r: Result<PTree>)
    ensures Has(t, ConstantTerm) ==> r.Err?
    ensures r.Err? ==> r.msg in {NullEdgeMessage, ParseErrorMessage(EdgeWidth)}
    ensures r.Ok? ==> !Has(r.value, ConstantTerm) && TypedLookup(r.value, EdgeWidth, ParseInt32).Some?
    ensures r.Ok? && !Has(t, EdgeWidth) ==> Lookup(r.value, EdgeWidth) == Some(Text.IntToString(10))
    ensures r.Ok? ==> Unchanged(t, r.value, BeamPowerTermKeys) && OnlySection(t, r.value, "Reconstruction")
  {
    var w :- OptionalParameter(t, EdgeWidth, 10, Text.IntToString, ParseInt32);
    IntDefaultsReadBack(10);
    LinearNotConstant();
    UnchangedKeeps(t, w.0, {EdgeWidth}, ConstantTerm);
    if Has(w.0, ConstantTerm) {
      return Err(NullEdgeMessage);
    }
    r := Ok(w.0);
  }

  /** The names of the decay keys differ (in length), and none is the
      correction's name. */
  lemma {:induction false} LinearNotConstant()
    ensures LinearTerm !in {ConstantTerm} && PostScanBrightFieldFile !in {ConstantTerm}
    ensures ConstantTerm !in {EdgeWidth} && {ConstantTerm} <= BeamPowerTermKeys && {EdgeWidth} <= BeamPowerTermKeys
    ensures BeamPowerCorrection !in BeamPowerTermKeys
    ensures BeamPowerNameKeys <= BeamPowerKeys && BeamPowerTermKeys <= BeamPowerKeys
  {
    assert |LinearTerm.name| == 24 && |ConstantTerm.name| == 26 && |EdgeWidth.name| == 29;
    assert |BeamPowerCorrection.name| == 19;
  }

  /** The corrections that use a constant decay term. */
  predicate UsesConstantTerm(opt: string)
  {
    opt == ManualText || opt == BrightFieldText || opt == ConstantTotalText
  }

  /** The messages the correction's rules may die with. */
  predicate BeamPowerTermError(msg: string)
  {
    msg == ManualMessage || msg == BrightFieldMessage || msg == NullEdgeMessage ||
    msg == ParseErrorMessage(ConstantTerm) || msg == ParseErrorMessage(EdgeWidth)
  }

  /** The rules of each correction, given its (valid) name. */
  method BeamPowerTerms(t: PTree, env: Env) returns (r: Result<PTree>)
    requires HasChoice(t, BeamPowerCorrection, BeamPowerChoices)
    ensures (Lookup(t, BeamPowerCorrection) == Some(ManualText) &&
             TypedLookup(t, LinearTerm, Text.ParseReal).None?) ==> r.Err?
    ensures (Lookup(t, BeamPowerCorrection) == Some(BrightFieldText) &&
             !Has(t, PostScanBrightFieldFile)) ==> r.Err?
    ensures Lookup(t, BeamPowerCorrection) == Some(NullEdgeText) && Has(t, ConstantTerm) ==> r.Err?
    ensures r.Err? ==> BeamPowerTermError(r.msg)
    ensures r.Ok? && UsesConstantTerm(Lookup(t, BeamPowerCorrection).value) ==>
              Has(r.value, ConstantTerm) &&
              (Has(t, ConstantTerm) ==> TypedLookup(t, ConstantTerm, Text.ParseReal).Some?)
    ensures r.Ok? && Lookup(t, BeamPowerCorrection) == Some(NullEdgeText) ==>
              !Has(r.value, ConstantTerm) && TypedLookup(r.value, EdgeWidth, ParseInt32).Some?
    ensures r.Ok? && Lookup(t, BeamPowerCorrection) == Some(NoneText) ==> r.value == t
    ensures r.Ok? ==> Unchanged(t, r.value, BeamPowerTermKeys) && OnlySection(t, r.value, "Reconstruction")
  {
    var opt := Lookup(t, BeamPowerCorrection).value;
    LinearNotConstant();
    if opt == ManualText {
      r := ManualTerms(t, env);
    } else if opt == BrightFieldText {
      r := BrightFieldTerms(t, env);
    } else if opt == NullEdgeText {
      r := NullEdgeTerms(t);
    } else if opt == ConstantTotalText {
      var c :- ConstantTermDefault(t, env);
      r := Ok(c.0);
    } else {
      r := Ok(t);
    }
  }

  /** The messages the raw-input corrections may die with. */
  predicate RawCorrectionError(msg: string)
  {
    msg == BadPixelMessage || msg == ParseErrorMessage(FlatFieldBadThreshold) ||
    msg == BeamPowerMessage || BeamPowerTermError(msg)
  }

  const RawCorrectionKeys: set<Key> :=
    {BadPixelCorrection, FlatFieldBadThreshold, BeamPowerCorrection, ConstantTerm, EdgeWidth}

  /** The corrections applied to raw projections: bad pixels, then beam power. */
  method RawCorrections(t: PTree, env: Env) returns (r: Result<PTree>)
    ensures Has(t, BadPixelCorrection) && Lookup(t, BadPixelCorrection).value !in BadPixelChoices ==>
              r == Err(BadPixelMessage)
    ensures r.Err? ==> RawCorrectionError(r.msg)
    ensures r.Ok? ==> HasChoice(r.value, BadPixelCorrection, BadPixelChoices) &&
                      HasChoice(r.value, BeamPowerCorrection, BeamPowerChoices)
    ensures r.Ok? ==> Unchanged(t, r.value, RawCorrectionKeys) && OnlySection(t, r.value, "Reconstruction")
  {
    var b :- BadPixel(t);
    var o :- BeamPowerOption(b);
    var w :- BeamPowerTerms(o, env);
    RawKeysDistinct();
    UnchangedKeeps(o, w, BeamPowerTermKeys, BeamPowerCorrection);
    UnchangedTrans(b, o, w, BeamPowerNameKeys, BeamPowerTermKeys, BeamPowerKeys, "Reconstruction");
    UnchangedKeeps(b, w, BeamPowerKeys, BadPixelCorrection);
    UnchangedTrans(t, b, w, BadPixelKeys, BeamPowerKeys, RawCorrectionKeys, "Reconstruction");
    r := Ok(w);
  }

  lemma {:induction false} RawKeysDistinct()
    ensures BadPixelCorrection !in BeamPowerKeys
    ensures BeamPowerCorrection !in BeamPowerTermKeys
    ensures BeamPowerNameKeys <= BeamPowerKeys && BeamPowerTermKeys <= BeamPowerKeys
    ensures BadPixelKeys <= RawCorrectionKeys && BeamPowerKeys <= RawCorrectionKeys
  {
    assert |BadPixelCorrection.name| == 18 && |BeamPowerCorrection.name| == 19;
    assert |ConstantTerm.name| == 26 && |EdgeWidth.name| == 29;
  }

  const BilinearText: string := "Bilinear"
  const NearestNeighborText: string := "NearestNeighbor"
  const FallbackText: string := "BilinearWithFallback"
  const InterpolationChoices: seq<string> := [BilinearText, NearestNeighborText, FallbackText]
  const InterpolationMessage: string := "Invalid value for Reconstruction.PixelInterpolation"

  const GaussianText: string := "Gaussian"
  const TaperedText: string := "TaperedCosineWindow"
  const SmoothingChoices: seq<string> := [NoneText, GaussianText, TaperedText]
  const SmoothingMessage: string := "Invalid value for Reconstruction.SmoothingFilter"
  // The C++ message joins two literals; the sentence break carries two spaces.
  const GaussianFrequenciesMessage: string :=
    "Reconstruction.SmoothingFilterFrequencies cannot be used with Gaussian.  Use Reconstruction.SmoothingFilterRadius instead."
  const TaperedRadiusMessage: string :=
    "Reconstruction.SmoothingFilterRadius cannot be used with TaperedCosineWindow.  Use Reconstruction.SmoothingFilterFrequencies instead."
  const SmoothingDefaulted: set<Key> := {SmoothingFilter, SmoothingRadius}

  /** The Gaussian filter: its radius defaults to 0.5; frequencies belong
      to the other filter. */
  method GaussianSmoothing(t: PTree, env: Env) returns (r: Result<PTree>)
    ensures Has(t, SmoothingFrequencies) ==> r.Err?
    ensures r.Err? ==> r.msg == GaussianFrequenciesMessage || r.msg == ParseErrorMessage(SmoothingRadius)
    ensures r.Ok? ==> Has(r.value, SmoothingRadius) && !Has(r.value, SmoothingFrequencies)
    ensures r.Ok? && !Has(t, SmoothingRadius) ==> Lookup(r.value, SmoothingRadius) == Some(env.showReal(0.5))
    ensures r.Ok? ==> Unchanged(t, r.value, {SmoothingRadius}) && OnlySection(t, r.value, "Reconstruction")
  {
    var rad :- OptionalParameter(t, SmoothingRadius, 0.5, env.showReal, Text.ParseReal);
    SmoothingKeysDistinct();
    UnchangedKeeps(t, rad.0, {SmoothingRadius}, SmoothingFrequencies);
    if Has(rad.0, SmoothingFrequencies) {
      return Err(GaussianFrequenciesMessage);
    }
    r := Ok(rad.0);
  }

  /** The smoothing frequencies are present and the tuple reader asserts on them. */
  predicate FrequenciesAssert(t: PTree)
  {
    Has(t, SmoothingFrequencies) && RealPairAsserts(Lookup(t, SmoothingFrequencies).value)
  }

  /** The tapered cosine window is chosen and the reader asserts on its frequencies. */
  predicate TaperedFrequenciesAssert(t: PTree)
  {
    Lookup(t, SmoothingFilter) == Some(TaperedText) && FrequenciesAssert(t)
  }

  /** The tapered cosine window: its two frequencies are required; a
      radius belongs to the other filter.  The tree does not change. */
  method TaperedSmoothing(t: PTree) returns (r: Result<PTree>)
    ensures Has(t, SmoothingRadius) ==> r.Err?
    ensures TypedLookup(t, SmoothingFrequencies, ParseRealPair).None? ==> r.Err?
    ensures FrequenciesAssert(t) ==> r == Err(AssertionMessage)
    ensures r.Err? ==> r.msg == TaperedRadiusMessage || r.msg == MissingMessage(SmoothingFrequencies) ||
                       r.msg == ParseErrorMessage(SmoothingFrequencies) || r.msg == AssertionMessage
    ensures r.Ok? ==> r.value == t
  {
    var fr :- RequireTuple(t, SmoothingFrequencies, RealPairAsserts, ParseRealPair);
    if Has(t, SmoothingRadius) {
      return Err(TaperedRadiusMessage);
    }
    r := Ok(t);
  }

  /** The smoothing filter: None, Gaussian or TaperedCosineWindow
      (default Gaussian), each with its own parameters. */
  method Smoothing(t: PTree, env: Env) returns (r: Result<PTree>)
    ensures Has(t, SmoothingFilter) && Lookup(t, SmoothingFilter).value !in SmoothingChoices ==>
              r == Err(SmoothingMessage)
    ensures ((!Has(t, SmoothingFilter) || Lookup(t, SmoothingFilter) == Some(GaussianText)) &&
             Has(t, SmoothingFrequencies)) ==> r.Err?
    ensures Lookup(t, SmoothingFilter) == Some(TaperedText) && Has(t, SmoothingRadius) ==> r.Err?
    ensures TaperedFrequenciesAssert(t) ==> r == Err(AssertionMessage)
    ensures r.Ok? ==> HasChoice(r.value, SmoothingFilter, SmoothingChoices)
    ensures r.Ok? && Lookup(r.value, SmoothingFilter) == Some(GaussianText) ==>
              Has(r.value, SmoothingRadius) && !Has(r.value, SmoothingFrequencies)
    ensures r.Ok? && Lookup(r.value, SmoothingFilter) == Some(TaperedText) ==>
              TypedLookup(r.value, SmoothingFrequencies, ParseRealPair).Some? && !Has(r.value, SmoothingRadius)
    ensures r.Ok? ==> Unchanged(t, r.value, SmoothingDefaulted) && OnlySection(t, r.value, "Reconstruction")
  {
    var f :- OptionalChoice(t, SmoothingFilter, GaussianText, SmoothingChoices, SmoothingMessage);
    SmoothingKeysDistinct();
    UnchangedKeeps(t, f.0, {SmoothingFilter}, SmoothingFrequencies);
    UnchangedKeeps(t, f.0, {SmoothingFilter}, SmoothingRadius);
    if f.1 == GaussianText {
      var g :- GaussianSmoothing(f.0, env);
      UnchangedKeeps(f.0, g, {SmoothingRadius}, SmoothingFilter);
      UnchangedTrans(t, f.0, g, {SmoothingFilter}, {SmoothingRadius}, SmoothingDefaulted, "Reconstruction");
      r := Ok(g);
    } else if f.1 == TaperedText {
      var c :- TaperedSmoothing(f.0);
      r := Ok(c);
    } else {
      r := Ok(f.0);
    }
  }

  lemma {:induction false} SmoothingKeysDistinct()
    ensures SmoothingFrequencies !in {SmoothingRadius} && SmoothingFrequencies !in {SmoothingFilter}
    ensures SmoothingRadius !in {SmoothingFilter} && SmoothingFilter !in {SmoothingRadius}
    ensures {SmoothingFilter} <= SmoothingDefaulted && {SmoothingRadius} <= SmoothingDefaulted
  {
    assert |SmoothingFilter.name| == 15 && |SmoothingRadius.name| == 21 && |SmoothingFrequencies.name| == 26;
  }

  const FilterKeys: set<Key> := {PixelInterpolation, SmoothingFilter, SmoothingRadius}
  const ReconstructionDefaulted: set<Key> :=
    {BadPixelCorrection, FlatFieldBadThreshold, BeamPowerCorrection, ConstantTerm, EdgeWidth,
     PixelInterpolation, SmoothingFilter, SmoothingRadius}

  /** The pixel interpolation passes its check (or is not looked at). */
  predicate InterpolationAccepted(t: PTree)
  {
    !Has(t, VolumeFile) || !Has(t, PixelInterpolation) ||
    Lookup(t, PixelInterpolation).value in InterpolationChoices
  }

  /** The pixel interpolation (when a volume is written) and the smoothing filter. */
  method ReconstructionFilters(t: PTree, env: Env) returns (r: Result<PTree>)
    ensures (Has(t, VolumeFile) && Has(t, PixelInterpolation) &&
             Lookup(t, PixelInterpolation).value !in InterpolationChoices) ==> r == Err(InterpolationMessage)
    ensures InterpolationAccepted(t) && TaperedFrequenciesAssert(t) ==> r == Err(AssertionMessage)
    ensures r.Ok? && Has(t, VolumeFile) ==> HasChoice(r.value, PixelInterpolation, InterpolationChoices)
    ensures r.Ok? ==> HasChoice(r.value, SmoothingFilter, SmoothingChoices)
    ensures r.Ok? ==> Unchanged(t, r.value, FilterKeys) && OnlySection(t, r.value, "Reconstruction")
  {
    var u := t;
    FilterKeysDistinct();
    if Has(t, VolumeFile) {
      var p :- OptionalChoice(t, PixelInterpolation, FallbackText, InterpolationChoices, InterpolationMessage);
      u := p.0;
    }
    UnchangedKeeps(t, u, {PixelInterpolation}, SmoothingFilter);
    UnchangedKeeps(t, u, {PixelInterpolation}, SmoothingFrequencies);
    var s :- Smoothing(u, env);
    UnchangedKeeps(u, s, SmoothingDefaulted, PixelInterpolation);
    UnchangedTrans(t, u, s, {PixelInterpolation}, SmoothingDefaulted, FilterKeys, "Reconstruction");
    r := Ok(s);
  }

  lemma {:induction false} FilterKeysDistinct()
    ensures PixelInterpolation !in SmoothingDefaulted
    ensures {PixelInterpolation} <= FilterKeys && SmoothingDefaulted <= FilterKeys
    ensures RawCorrectionKeys <= ReconstructionDefaulted && FilterKeys <= ReconstructionDefaulted
    ensures BadPixelCorrection !in FilterKeys && BeamPowerCorrection !in FilterKeys
    ensures SmoothingFilter !in {PixelInterpolation} && SmoothingFrequencies !in {PixelInterpolation}
  {
    assert |PixelInterpolation.name| == 18 && |SmoothingFilter.name| == 15 && |SmoothingRadius.name| == 21;
    assert |SmoothingFrequencies.name| == 26;
    assert |BadPixelCorrection.name| == 18 && |BeamPowerCorrection.name| == 19;
  }

  /** The Reconstruction section: corrections of raw projections (only
      when those are the input), the filters, then the whitelist. */
  method CheckReconstruction(t: PTree, env: Env) returns (r: Result<PTree>)
    ensures r.Ok? && Has(t, RawProjectionsFile) ==>
              HasChoice(r.value, BadPixelCorrection, BadPixelChoices) &&
              HasChoice(r.value, BeamPowerCorrection, BeamPowerChoices)
    ensures r.Ok? && Has(t, VolumeFile) ==> HasChoice(r.value, PixelInterpolation, InterpolationChoices)
    ensures !Has(t, RawProjectionsFile) && InterpolationAccepted(t) && TaperedFrequenciesAssert(t) ==>
              r == Err(AssertionMessage)
    ensures r.Ok? ==> HasChoice(r.value, SmoothingFilter, SmoothingChoices)
    ensures r.Ok? && !Has(t, RawProjectionsFile) ==> Unchanged(t, r.value, FilterKeys)
    ensures r.Ok? ==> Unchanged(t, r.value, ReconstructionDefaulted) && OnlySection(t, r.value, "Reconstruction")
    ensures r.Ok? ==> SectionKnown(r.value, "Reconstruction", ReconstructionKeys)
  {
    var u := t;
    FilterKeysDistinct();
    if Has(t, RawProjectionsFile) {
      u :- RawCorrections(t, env);
      LookupBySection(t, u, VolumeFile);
    }
    var f :- ReconstructionFilters(u, env);
    UnchangedKeeps(u, f, FilterKeys, BadPixelCorrection);
    UnchangedKeeps(u, f, FilterKeys, BeamPowerCorrection);
    UnchangedTrans(t, u, f, RawCorrectionKeys, FilterKeys, ReconstructionDefaulted, "Reconstruction");
    var ok :- CheckSection(f, "Reconstruction", ReconstructionKeys);
    r := Ok(f);
  }
}
