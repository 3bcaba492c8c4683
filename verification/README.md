# athabasca_recon core, modelled in Dafny

athabasca_recon reconstructs a CT volume from a stack of parallel-beam
projections by filtered back-projection. This project models the parts of
it that carry logic rather than I/O or threads:

- The `bonelab` support library:
  - `Array` and `Image` containers, with their construct, copy and flat
    index rules.
  - `DoubleBuffer`.
  - `Tuple` arithmetic and its text stream format.
  - Byte-order conversion.
  - The FFT length helpers.
  - The data-type tokens.
  - The `.conf` reader and writer for property trees, and the tree `merge`
    helper.
- The reconstruction configuration check:
  - `ReconConfiguration::VerifyConfiguration`, section by section, with
    its defaults and error messages.
  - The memory-size parser.
- The numerical kernels:
  - The real-space ramp, Gaussian and tapered-cosine filters.
  - The convolution projection filterer and the linear least-squares fit.
  - The beam-power correctors and the bad-pixel neighbourhood walker.
  - Nearest-neighbour and bilinear pixel interpolation.
  - The ray–projection intersection.
  - The sub-volume splitter.
- The ImageJ tuning tool `Align_Projections`:
  - Its geometry and its normalised cross-correlation.
  - The RGB overlay.
  - The convergence checker with manual cancel.
  - The two-phase Powell tuning run.

Floating-point values are modelled as `real` (exact arithmetic). Integers
are unbounded, except where the source's width matters: `size_t`
products (`Tuple.LongProduct`), `int32` and `int64` parsing, and the
`int64` memory product (`MemoryValue`). There they are written out
explicitly. Errors that the C++ reports by throwing an exception or
failing an assertion are modelled as the `Err` case of a `Result`, with
the exception's message. A standard-library function the source calls
is passed in as a parameter. This covers `cos`, `exp`, `sqrt`,
`Math.PI`, the number formatters and the optimiser. There are two
number formatters: ptree's translator for a lone `double` default, and
the stream's default formatting for each element of a tuple default. So is the value of a
`double`-to-`int64_t` conversion that C++ leaves undefined.

Files (one module each):
- `wrappers.dfy`: Option/Result.
- `tuple.dfy`, `tuple_text.dfy`: `Tuple`.
- `array.dfy`, `image.dfy`, `double_buffer.dfy`: the containers.
- `endian.dfy`, `fft_util.dfy`, `data_types.dfy`: small helpers.
- `text.dfy`: whitespace trimming and number text.
- `proptree.dfy`: property trees.
- `conf_reader.dfy`, `conf_writer.dfy`, `conf_roundtrip.dfy`, `conf_read_invariant.dfy`: the `.conf` format.
- `tree_merge.dfy`: tree merge.
- `recon_params.dfy`, `recon_config.dfy`, `recon_verify.dfy`, `memory_value.dfy`: the configuration check.
- `filters.dfy`, `convolution.dfy`, `linear_fit.dfy`, `beam_power.dfy`, `neighborhood_walker.dfy`, `pixel_interpolator.dfy`, `ray_tracer.dfy`, `subvolumer.dfy`: the numerical kernels.
- `align_*.dfy`: the ImageJ tuning tool.

## Model

| member | source | states |
|---|---|---|
| ArrayModel.Construct | bonelab/Array.hpp:129-140 | succeeds exactly when the array is not yet constructed (else "Array is already constructed."); the result has the requested dims, `long_product(dims)` elements, all zero |
| ArrayModel.ConstructReference | bonelab/Array.hpp:155-175 | succeeds exactly when not yet constructed; the array then reads the caller's buffer element for element |
| ArrayModel.Destruct | bonelab/Array.hpp:177-187 | afterwards the array is unconstructed, holds no data and every dimension is 0 |
| ArrayModel.Zero | bonelab/Array.hpp:287-292 | fails ("Array is not constructed.") exactly on an unconstructed array; otherwise same dims and size, every element 0 |
| ArrayModel.Copy | bonelab/Array.hpp:299-306 | succeeds exactly when the source is constructed and the target is unconstructed or has the same dims; the two error messages are told apart; on success dims and data equal the source's; after a refusal a constructed target is unchanged, while an unconstructed one has already been constructed with the source's dims and zeros |
| ArrayModel.CopyFromBuffer | bonelab/Array.hpp:312-317 | succeeds exactly on a constructed array, keeps the dims, and element i becomes buffer element i |
| ArrayModel.At | bonelab/Array.hpp:260-282 | a read succeeds exactly when the array is constructed and the index is below its size, and gives that element; each failure has its own message |
| ArrayModel.Store | bonelab/Array.hpp:260-282 | a write changes element i to v and no other element |
| ArrayModel.FlatIndexInRange | bonelab/Array.hpp:249-257 | an in-bounds multi-index maps into `[0, product(dims))` |
| ArrayModel.UnflattenFlatIndex | bonelab/Array.hpp:249-257 | the row-major flat index is inverted by `Unflatten` |
| ArrayModel.FlatIndexUnflatten | bonelab/Array.hpp:249-257 | every flat index below the size is the flat index of exactly the in-bounds index `Unflatten` gives |
| ArrayModel.FlatIndexInjective | bonelab/Array.hpp:249-257 | two in-bounds indices have the same flat index if and only if they are equal |
| ArrayModel.FlatIndexSpecialisations | bonelab/Array.hpp:470-480 | the 2-D and 3-D `operator()` offsets agree with the general flat index |
| ArrayModel.FlatIndexExamples | bonelab/Array.hpp:522-534 | concrete offsets, e.g. index (1,2,3) of a 2×3×4 array is 23 |
| ArrayModel.InBoundsReadable | bonelab/Array.hpp:202-215 | when the size fits in `size_t`, every in-bounds index addresses a stored element |
| ArrayModel.ReadAfterWrite | bonelab/Array.hpp:470-534 | reading after a write gives the written value at the written index and the old value elsewhere |
| ArrayModel.ConstructSize | bonelab/Array.hpp:129-140 | constructing with dims whose product fits gives exactly `product(dims)` elements |
| ArrayModel.DestructThenConstruct | bonelab/Array.hpp:177-187 | a destructed array can always be constructed again |
| ArrayModel.ZeroAfterConstruct | bonelab/Array.hpp:287-292 | zeroing a freshly constructed array changes nothing |
| ArrayModel.ZeroIdempotent | bonelab/Array.hpp:287-292 | zeroing twice is zeroing once |
| ArrayModel.CopyIdempotent | bonelab/Array.hpp:299-306 | copying the same source twice is copying once |
| ArrayModel.CopyReadsSource | bonelab/Array.hpp:299-306 | after a successful copy every index reads what the source reads there |
| ArrayModel.RefusedCopyConstructs | bonelab/Array.hpp:299-306 | a copy from an unconstructed source into an unconstructed target is refused but leaves the target constructed with the source's dims, so a later copy from a constructed array of those dims succeeds and one of other dims is refused for the size |
| ImageModel.InteriorExtent | bonelab/Image.hpp:253-262 | the interior extent along an axis is `(d-1)·spacing` long and starts at the origin |
| ImageModel.ExteriorExtent | bonelab/Image.hpp:253-262 | the exterior extent is `d·spacing` long, half a pixel wider on each side |
| ImageModel.CalculateExtents | bonelab/Image.hpp:253-262 | one interior and one exterior extent per axis, starting at origin and origin − spacing/2 |
| ImageModel.Construct | bonelab/Image.hpp:165-176 | succeeds exactly when the pixel array is unconstructed; the image takes the given dims, spacing and origin |
| ImageModel.ConstructReference | bonelab/Image.hpp:188-200 | succeeds exactly when the pixel array is unconstructed; the image takes the given dims, spacing and origin over the caller's buffer |
| ImageModel.Destruct | bonelab/Image.hpp:240-246 | the image is unconstructed and, with spacing and origin zeroed, every extent collapses to 0 |
| ImageModel.Copy | bonelab/Image.hpp:271-284 | succeeds exactly when the source is constructed and sizes agree or the target is empty ("cannot copy different sized Images"); pixels, spacing and origin become the source's; unless the sizes differ, the target takes the source's dims, spacing and origin even when the array copy then throws; a size refusal leaves the target as it was |
| ImageModel.CopyReproducesSource | bonelab/Image.hpp:271-284 | a permitted copy yields exactly the source image |
| ImageModel.RefusedCopyTakesGeometry | bonelab/Image.hpp:271-284 | a copy from an unconstructed image into a constructed one of the same dims throws "Array is not constructed." after the target has taken the source's spacing and origin; its pixels are kept |
| ImageModel.PixelCentresInside | bonelab/Image.hpp:287-315 | every pixel centre lies in the interior extent and every pixel's cell in the exterior extent |
| ImageModel.ExtentsExample | bonelab/Image.hpp:253-262 | the extents of a 3×4 image with spacing (0.5, 2) and origin (−10, 5) |
| DoubleBufferModel.Init | bonelab/DoubleBuffer.hpp:44-57 | a new double buffer loads into A and shows B |
| DoubleBufferModel.Swap | bonelab/DoubleBuffer.hpp:60-65 | swapping exchanges the loading and active roles and keeps both buffers |
| DoubleBufferModel.SwapTwice | bonelab/DoubleBuffer.hpp:60-65 | two swaps restore the double buffer |
| DoubleBufferModel.SwapCarriesContents | bonelab/DoubleBuffer.hpp:50-65 | what was loaded becomes active after a swap, and what was active becomes the loading buffer |
| DoubleBufferModel.SetLoading | bonelab/DoubleBuffer.hpp:50-57 | writing the loading buffer leaves the active one and the roles alone |
| DoubleBufferModel.SetActive | bonelab/DoubleBuffer.hpp:50-57 | writing the active buffer leaves the loading one and the roles alone |
| DoubleBufferModel.ConstructArrays | bonelab/DoubleBuffer.hpp:133-137 | succeeds exactly when neither buffer is constructed, then both have the dims; if only B was constructed, A is constructed before the error (partial state kept) |
| DoubleBufferModel.RefusedConstructLeavesAConstructed | bonelab/DoubleBuffer.hpp:133-137 | the refused construction still leaves A constructed |
| DoubleBufferModel.DestructArrays | bonelab/DoubleBuffer.hpp:169-173 | both buffers end unconstructed with size 0 |
| DoubleBufferModel.ConstructedBuffersAgree | bonelab/DoubleBuffer.hpp:133-137 | after construction and any number of swaps both buffers have the constructed dims and size |
| DoubleBufferModel.SwapNKeepsBuffers | bonelab/DoubleBuffer.hpp:60-65 | swaps never change the buffers themselves |
| DoubleBufferModel.ConstructImages | bonelab/DoubleBuffer.hpp:264-274 | the image version of ConstructArrays, also setting spacing and origin |
| Tuple.Equal | bonelab/Tuple.hpp:119-127 | element-wise equality loop returns true if and only if the tuples are equal |
| Tuple.NotEqual | bonelab/Tuple.hpp:128-133 | returns true if and only if the tuples differ |
| Tuple.Neg | bonelab/Tuple.hpp:135-141 | every element negated |
| Tuple.Add | bonelab/Tuple.hpp:584-607 | element-wise sum |
| Tuple.Sub | bonelab/Tuple.hpp:632-655 | element-wise difference |
| Tuple.Mul | bonelab/Tuple.hpp:704-727 | element-wise product |
| Tuple.Div | bonelab/Tuple.hpp:728-751 | element-wise quotient |
| Tuple.AddScalar | bonelab/Tuple.hpp:560-583 | the scalar added to every element |
| Tuple.SubScalar | bonelab/Tuple.hpp:608-631 | the scalar subtracted from every element |
| Tuple.Scale | bonelab/Tuple.hpp:656-703 | every element multiplied by the scalar |
| Tuple.DivScalar | bonelab/Tuple.hpp:752-773 | every element divided by the scalar |
| Tuple.ArithmeticInverses | bonelab/Tuple.hpp:135-655 | subtraction undoes addition, adding the negation is subtraction, negation is an involution, scalar shift is undone |
| Tuple.DivisionInverses | bonelab/Tuple.hpp:655-773 | division undoes multiplication, by a non-zero scalar or element-wise |
| Tuple.SumIsTotal | bonelab/Tuple.hpp:371-377 | the accumulating `sum()` loop equals the total of all elements |
| Tuple.SumAdditive | bonelab/Tuple.hpp:371-377 | the sum of an element-wise sum is the sum of the sums |
| Tuple.DotIsSumOfProducts | bonelab/Tuple.hpp:775-793 | `dot(a,b)` is the sum of the element-wise products |
| Tuple.DotSymmetric | bonelab/Tuple.hpp:775-793 | `dot(a,b) == dot(b,a)` |
| Tuple.ProductZero | bonelab/Tuple.hpp:352-358 | the product is 0 if and only if some element is 0 |
| Tuple.ProductPositive | bonelab/Tuple.hpp:352-358 | positive elements give a positive product |
| Tuple.LongProduct | bonelab/Tuple.hpp:360-369 | the `size_t` product is reduced modulo 2^64 |
| Tuple.LongProductExact | bonelab/Tuple.hpp:360-369 | when no partial product overflows, `long_product` equals the exact product |
| Tuple.LongProductOfTwoGiga | bonelab/Tuple.hpp:360-369 | 2^30 · 2^30 still fits: 2^60 |
| Tuple.Reverse | bonelab/Tuple.hpp:795-813 | element i of the result is element n−1−i of the argument |
| Tuple.ReverseInvolution | bonelab/Tuple.hpp:795-813 | reversing twice gives the tuple back |
| TupleText.Show | bonelab/Tuple.hpp:379-391 | `operator<<` writes a bracketed, comma-separated list |
| TupleText.ReadAsWritten | bonelab/Tuple.hpp:393-535 | `operator>>` as written, including the assertion on unbracketed trailing text; a parsed tuple has N elements |
| TupleText.Read | bonelab/Tuple.hpp:393-535 | the corrected reader never fails an assertion; sets failbit instead; otherwise agrees with the as-written reader |
| TupleText.UnbracketedTrailingTextAsserts | bonelab/Tuple.hpp:501-512 | `1,2,3x` makes the as-written reader fail its assertion and the corrected reader set failbit |
| TupleText.RoundTrip | bonelab/Tuple.hpp:379-535 | reading what `operator<<` wrote, followed by any text, gives the tuple and leaves that text |
| TupleText.RoundTripAtEnd | bonelab/Tuple.hpp:379-535 | the same at end of input |
| TupleText.IntTupleRoundTrip | bonelab/tests/TupleTests.cpp:101-112 | integer tuples round-trip through text |
| TupleText.NestedTupleRoundTrip | bonelab/tests/TupleTests.cpp:114-126 | tuples of pairs round-trip through text |
| TupleText.ReadExample | bonelab/tests/TupleTests.cpp:88-99 | `(1,4,6)` reads as (1,4,6) |
| TupleText.ShowExample | bonelab/Tuple.hpp:379-391 | (1,4,6) is written `(1,4,6)` |
| Endian.SwapBytesAsWritten | bonelab/endian.hpp:42-60 | the loop as written mirrors every byte but, for an odd size, leaves the middle output byte unwritten (the parameter `middle`); for an even size it reverses the bytes |
| Endian.OneByteSwapAsWritten | bonelab/endian.hpp:42-60 | a one-byte value swapped as written comes back as the unwritten byte, not as itself |
| Endian.SwapBytes | bonelab/endian.hpp:42-60 | the corrected loop, starting from a copy of the input, reverses the bytes for every size |
| Endian.ReverseInvolution | bonelab/endian.hpp:42-60 | swapping twice gives the value back |
| Endian.ConvertValue | bonelab/endian.hpp:73-84 | no change when the orders agree; otherwise the swap as written: every byte but the middle one of an odd size is mirrored, that one is the unwritten byte, and an even-size value is byte-reversed |
| Endian.ConvertBuffer | bonelab/endian.hpp:90-108 | when the orders differ, each of the first `count` values becomes its swap as written (byte-reversed for an even size), the rest are untouched; equal orders change nothing |
| Endian.ConvertBackAndForth | bonelab/endian.hpp:73-84 | converting a value of even size to another order and back gives it back, whatever the unwritten bytes |
| FFTUtil.NextPowerOfTwo | bonelab/FFT_util.hpp:32-39 | the least p with 2^p ≥ n |
| FFTUtil.NextNumberWithFactors2And3 | bonelab/FFT_util.hpp:43-58 | the least 2^a·3^b ≥ n, never above the next power of two |
| DataTypes.DataTypeAsString | bonelab/types.hpp:76-82 | a token exactly for the ten valid values, NULL otherwise |
| DataTypes.DataTypeFromString | bonelab/types.hpp:88-96 | the value whose token matches, −1 exactly when none matches |
| DataTypes.AsStringInjective | bonelab/types.hpp:60-82 | distinct values have distinct tokens |
| DataTypes.TokensDistinct | bonelab/types.hpp:60-73 | ten distinct non-empty tokens without spaces |
| DataTypes.WriteDataType | bonelab/types.hpp:112-116 | writes the value's token |
| DataTypes.ReadDataType | bonelab/types.hpp:118-126 | reads one word; succeeds exactly when it is a token and then yields the value whose token it is, else failbit |
| Text.SplitWord | bonelab/types.hpp:118-126 | the word extracted is space-free and is followed by nothing or a space; word and rest together are the input less its leading whitespace |
| Text.SplitWordUnique | bonelab/types.hpp:118-126 | any split of that shape is the one extraction gives |
| DataTypes.WriteReadWord | bonelab/types.hpp:112-126 | a written token followed by a space or the end reads back as the same word |
| ConfReader.ParseLine | bonelab/boost/property_tree/conf_parser.hpp:93-136 | classifies a trimmed line: empty or `#` is skipped, `[` needs `]`, a pair needs `=` and a key; the three error messages |
| ConfReader.OpenSection | bonelab/boost/property_tree/conf_parser.hpp:101-117 | a header drops an empty previous section, fails on a duplicate name, and appends an empty section |
| ConfReader.AddPair | bonelab/boost/property_tree/conf_parser.hpp:118-136 | a pair goes into the open section (or the root), failing exactly on a duplicate key there |
| ConfReader.DropEmptySection | bonelab/boost/property_tree/conf_parser.hpp:103-105 | removes the last section exactly when it is open and has no children |
| ConfReader.Apply | bonelab/boost/property_tree/conf_parser.hpp:82-138 | skipped lines change nothing, bad lines fail with their message, the state stays consistent |
| ConfReader.ReadLine | bonelab/boost/property_tree/conf_parser.hpp:93-136 | trims then applies a line, keeping the state consistent |
| ConfReader.ReadConf | bonelab/boost/property_tree/conf_parser.hpp:65-146 | a parse error names a line number within the input |
| ConfReader.ReadConfInto | bonelab/boost/property_tree/conf_parser.hpp:139-146 | the caller's tree is replaced only on success and untouched on error |
| ConfReader.SplitJoin | bonelab/boost/property_tree/conf_parser.hpp:82-92 | line splitting inverts joining with newlines |
| ConfReader.ParseLineExamples | bonelab/boost/property_tree/conf_parser.hpp:97-127 | a comment, an unmatched `[`, a missing key and a missing `=` |
| ConfWriter.HasDuplicateKeys | bonelab/boost/property_tree/conf_parser.hpp:177-195 | true if and only if two children share a key |
| ConfWriter.WriteLeaves | bonelab/boost/property_tree/conf_parser.hpp:255-261 | one `key = value` line per leaf, failing ("ptree is too deep") exactly when a child has children |
| ConfWriter.WriteItems | bonelab/boost/property_tree/conf_parser.hpp:231-262 | succeeds exactly when every entry is writable; otherwise one of the three messages |
| ConfWriter.WriteLines | bonelab/boost/property_tree/conf_parser.hpp:211-266 | succeeds exactly on a writable tree; data on the root is refused |
| ConfWriter.WriteConf | bonelab/boost/property_tree/conf_parser.hpp:211-266 | succeeds exactly on a writable tree |
| ConfRoundTrip.WriteThenRead | bonelab/boost/property_tree/conf_parser.hpp:65-266 | a tree in the format's domain is written without error and reads back as itself |
| ConfReadInvariant.ReadConfConformant | bonelab/boost/property_tree/conf_parser.hpp:65-146 | every tree the reader produces is in the format's domain |
| ConfReadInvariant.ReadThenWrite | bonelab/boost/property_tree/conf_parser.hpp:65-266 | so any tree read can be written and read back unchanged |
| ConfReadInvariant.ReadLineKeepsInv | bonelab/boost/property_tree/conf_parser.hpp:93-136 | each line keeps the reader's invariant |
| TreeMerge.MergeLeaf | bonelab/boost/property_tree/util.hpp:18-26 | a leaf is put when overwriting or when absent; otherwise the tree is unchanged |
| TreeMerge.MergeIsPutAll | bonelab/boost/property_tree/util.hpp:14-32 | the recursive merge equals putting b's leaves in order under their dotted paths |
| TreeMerge.MergeKeepsExisting | bonelab/boost/property_tree/util.hpp:23-25 | without overwrite, existing values survive |
| TreeMerge.MergeKeepsUnnamed | bonelab/boost/property_tree/util.hpp:14-32 | paths b does not name are untouched |
| TreeMerge.MergeOverwriteLastWins | bonelab/tests/property_tree_util_Tests.cpp:31-45 | with overwrite, b's value is what remains |
| TreeMerge.MergeAddsNew | bonelab/tests/property_tree_util_Tests.cpp:15-29 | without overwrite, absent leaves of b are added |
| TreeMerge.MergePresent | bonelab/boost/property_tree/util.hpp:14-32 | every leaf path of b is present afterwards |
| ReconParams.RequireParameter | source/ReconConfiguration.cpp:485-495 | missing key and unparsable value give their messages; success exactly when the typed lookup succeeds, yielding its value |
| ReconParams.OptionalParameter | source/ReconConfiguration.cpp:498-516 | a missing key is filled with the default's text and the default returned; a present key must parse |
| ReconParams.ParseTuple | source/ReconConfiguration.cpp:490 | a tuple value parses exactly when the reader as written yields a tuple followed only by whitespace; text on which the reader asserts gives no value |
| ReconParams.IndexPairTrailingText | bonelab/Tuple.hpp:501-512 | `a,b` followed by a character that neither continues a number nor separates makes the reader of an index pair assert |
| ReconParams.TrailingTextExample | bonelab/Tuple.hpp:501-512 | the text `100,200x` makes the reader of an index pair assert |
| ReconParams.RequireTuple | source/ReconConfiguration.cpp:485-495 | for a tuple key: missing gives the missing message, an asserting reader gives "Assertion failure", an otherwise unparsable value the parse message; success exactly when the value parses and the reader does not assert |
| ReconParams.OptionalTuple | source/ReconConfiguration.cpp:498-516 | for a tuple key: a missing key takes the default's text; a present key on which the reader asserts gives "Assertion failure"; otherwise as OptionalParameter |
| ReconParams.OptionalThenRequire | source/ReconConfiguration.cpp:485-516 | after an optional lookup the key is required-readable with the same value, and a second optional lookup is a no-op |
| ReconParams.IntDefaultsReadBack | source/ReconConfiguration.cpp:498-516 | an `int32` default written as text reads back as itself |
| ReconParams.ParseInt32 | source/ReconConfiguration.cpp:485-495 | integer text accepted exactly within the `int32` range |
| ReconParams.FirstUnknown | source/ReconConfiguration.cpp:530-544 | the position of the first key not in the whitelist: every key before it is whitelisted |
| ReconParams.CheckForUnknown | source/ReconConfiguration.cpp:518-546 | succeeds exactly when every key is whitelisted; else names the first unknown key |
| ReconParams.CheckSection | source/ReconConfiguration.cpp:518-546 | succeeds exactly when the section has only whitelisted keys |
| ReconParams.PutKey | source/ReconConfiguration.cpp:498-516 | putting a key makes it readable and changes no other key or section |
| ReconConfig.CheckInput | source/ReconConfiguration.cpp:185-194 | exactly one input file is required ("exactly one of …" message) and only known keys |
| ReconConfig.CheckOutput | source/ReconConfiguration.cpp:198-218 | both attenuation files together are refused; only known keys |
| ReconConfig.RequiredProjections | source/ReconConfiguration.cpp:222-225 | dimensions, count, data type and pixel size are required and parsed, the tuples reversed; dimensions on which the tuple reader asserts give "Assertion failure" |
| ReconConfig.ProjectionGeometry | source/ReconConfiguration.cpp:226-227 | centre pixel and offset default to the given values when absent |
| ReconConfig.ProjectionDefaults | source/ReconConfiguration.cpp:226-234 | the centre column defaults to (dims[1]−1)/2 and the offset to −pixel[0]·(dims[0]−1)/2; the rotation keys are then defaulted, ProjectionAt180 to "True" |
| ReconConfig.ProjectionRotation | source/ReconConfiguration.cpp:228-234 | ReverseRotation must read "True" or "False" (default "False"), else the program's own message; the ProjectionAt180 flag defaults to "True" and a given value is kept |
| ReconConfig.CheckProjections | source/ReconConfiguration.cpp:220-237 | the Projections section is complete, parsed and defaulted, or reports the first problem; missing dimensions and dimensions on which the tuple reader asserts give their messages |
| ReconConfig.VolumeSpacing | source/ReconConfiguration.cpp:243-253 | voxel size is required for non-square pixels and defaults to the pixel size otherwise; a voxel size on which the tuple reader asserts gives "Assertion failure" |
| ReconConfig.CentredOrigin | source/ReconConfiguration.cpp:261-264 | the default origin centres the volume: origin + (d−1)·spacing = −origin |
| ReconConfig.ToIndex | source/ReconConfiguration.cpp:254-257 | the `int64_t` conversion truncates toward zero when the result fits, and is otherwise the platform's value |
| ReconConfig.DefaultExtentNearest | source/ReconConfiguration.cpp:254-257 | a default volume dimension is the whole number of voxels nearest to the detector's extent, halves rounding up |
| ReconConfig.DefaultDimsOfSquarePixels | source/ReconConfiguration.cpp:254-257 | with voxels the size of square pixels the default volume is width × height × height of the detector: the third dimension comes from the detector's second |
| ReconConfig.ExtentOfOwnSize | source/ReconConfiguration.cpp:254-257 | a detector of n pixels gives n voxels of the pixel size |
| ReconConfig.VolumeGeometry | source/ReconConfiguration.cpp:254-265 | absent dimensions default to `DefaultVolumeDims` of the projections and spacing, written back as text; present ones are the reversed parsed tuple; the origin defaults to the centred one; dimensions or origin on which the tuple reader asserts give "Assertion failure" |
| ReconConfig.CheckVolume | source/ReconConfiguration.cpp:239-269 | the Volume section is checked only when a volume is written; then the voxel size is required for non-square pixels, an asserting voxel size gives "Assertion failure", and absent dimensions are the default ones |
| ReconConfig.BadPixel | source/ReconConfiguration.cpp:275-283 | the bad-pixel method is one of its choices, and the threshold must parse |
| ReconConfig.BeamPowerOption | source/ReconConfiguration.cpp:284-297 | the beam-power method is one of its choices, with the old name renamed |
| ReconConfig.ManualTerms | source/ReconConfiguration.cpp:298-306 | manual correction needs the linear term and defaults the constant term |
| ReconConfig.BrightFieldTerms | source/ReconConfiguration.cpp:307-315 | bright-field correction needs the post-scan file |
| ReconConfig.NullEdgeTerms | source/ReconConfiguration.cpp:316-323 | null-edge correction refuses a constant term and defaults the edge width |
| ReconConfig.ConstantTermDefault | source/ReconConfiguration.cpp:324-327 | the constant term defaults to 0 |
| ReconConfig.BeamPowerTerms | source/ReconConfiguration.cpp:298-327 | each method's terms are checked as above |
| ReconConfig.RawCorrections | source/ReconConfiguration.cpp:273-328 | the raw-projection corrections are complete and consistent, or the first error |
| ReconConfig.ReconstructionFilters | source/ReconConfiguration.cpp:330-339 | pixel interpolation is one of its choices when a volume is written; once it is accepted, tapered smoothing with frequencies on which the tuple reader asserts gives "Assertion failure" |
| ReconConfig.GaussianSmoothing | source/ReconConfiguration.cpp:348-356 | Gaussian smoothing refuses frequencies and defaults the radius |
| ReconConfig.TaperedSmoothing | source/ReconConfiguration.cpp:357-365 | tapered smoothing refuses a radius and requires two frequencies; frequencies on which the tuple reader asserts give "Assertion failure" before the radius is looked at |
| ReconConfig.Smoothing | source/ReconConfiguration.cpp:341-365 | the smoothing filter is one of its choices and its parameters are checked; the tapered window with asserting frequencies gives "Assertion failure" |
| ReconConfig.CheckReconstruction | source/ReconConfiguration.cpp:271-368 | the Reconstruction section is complete and consistent, or the first error; without raw input, an accepted interpolation and the tapered window with asserting frequencies give "Assertion failure" |
| ReconVerify.ThreadCount | source/ReconConfiguration.cpp:379-387 | the thread count is "automatic" or a positive integer, defaulting to automatic |
| ReconVerify.EngineThreads | source/ReconConfiguration.cpp:372-388 | the engine is one of its choices; the multi-threaded engine needs a valid thread count |
| ReconVerify.VolumeMemory | source/ReconConfiguration.cpp:390-391 | the memory limit defaults to automatic when a volume is written, nothing else changes |
| ReconVerify.DefaultFilteringModule | source/ReconConfiguration.cpp:393-419 | the default module is available, and is convolution exactly when neither vDSP nor FFTW is |
| ReconVerify.Filtering | source/ReconConfiguration.cpp:393-419 | the filtering module must be available unless filtered input is given |
| ReconVerify.CheckSoftware | source/ReconConfiguration.cpp:370-422 | the Software section is complete and consistent, or the first error |
| ReconVerify.CheckSections | source/ReconConfiguration.cpp:183-422 | every section is checked in order; Input and Output are unchanged; missing projection dimensions and dimensions on which the tuple reader asserts give their messages |
| ReconVerify.VerifyConfiguration | source/ReconConfiguration.cpp:171-428 | the whole check: the input rule first, then each section, then unknown sections; once Input and Output pass, projection dimensions such as `100,200x` give "Assertion failure" |
| MemoryValue.AutomaticMemory | source/ReconConfiguration.cpp:451-456 | "automatic" is the larger of 512 MB and system memory less 1 GB |
| MemoryValue.Units | source/ReconConfiguration.cpp:461-468 | the first "MB", else the first "GB", else none |
| MemoryValue.MemoryAmount | source/ReconConfiguration.cpp:469-477 | the trimmed number before the unit must be an `int64`, else the number message |
| MemoryValue.ParseMemoryValueAsWritten | source/ReconConfiguration.cpp:447-482 | the C++ as written: the `int64` product wraps modulo 2^64 before the positivity assertion |
| MemoryValue.BytesAsWritten | source/ReconConfiguration.cpp:478-479 | the wrapped product is accepted exactly when positive |
| MemoryValue.ParseMemoryValue | source/ReconConfiguration.cpp:447-482 | the corrected parser: a result is the exact product, positive and within `int64` |
| MemoryValue.Bytes | source/ReconConfiguration.cpp:478-479 | the exact product is accepted exactly when it is positive and fits in `int64` |
| MemoryValue.AgreeWithoutOverflow | source/ReconConfiguration.cpp:477-479 | as written and corrected agree whenever the product fits |
| MemoryValue.MemoryRoundTrip | source/ReconConfiguration.cpp:447-482 | "n MB" / "n GB" parse to n·2^20 / n·2^30 when that fits |
| MemoryValue.WrappedAmountAccepted | source/ReconConfiguration.cpp:477-479 | n MB with 2^44 < n < 1.5·2^44 is accepted as written with a wrapped value and refused by the corrected parser |
| MemoryValue.OverflowRejected | source/ReconConfiguration.cpp:477-479 | the corrected parser refuses every overflowing product |
| Filters.ConstructRealSpaceFilter | source/filtering/RampFilterRealSpace.cpp:32-54 | succeeds exactly for an unconstructed array of the right size; element j is the ramp value at offset min(j, n−j) |
| Filters.RampSymmetric | source/filtering/RampFilterRealSpace.cpp:46-52 | the ramp kernel is symmetric: f[j] = f[n−j] |
| Filters.RampScalesWithWeight | source/filtering/RampFilterRealSpace.cpp:46-52 | the kernel is linear in the weight |
| Filters.RampScalesWithSpacing | source/filtering/RampFilterRealSpace.cpp:46-52 | scaling the spacing by c divides the kernel by c |
| Filters.Offset | source/filtering/RampFilterRealSpace.cpp:50-52 | the wrapped distance of index j: j or n−j, at most n/2 |
| Filters.OffsetMirror | source/filtering/RampFilterRealSpace.cpp:50-52 | j and n−j have the same offset |
| Filters.SetRadius | source/filtering/GaussianFilter.cpp:39-42 | sigma · radius · π = 1 |
| Filters.ConstructGaussian | source/filtering/GaussianFilter.cpp:45-58 | succeeds exactly for an unconstructed array of the right size; element j is the Gaussian at offset j |
| Filters.GaussianSymmetric | source/filtering/GaussianFilter.cpp:45-58 | the Gaussian transfer function is symmetric |
| Filters.ConstructTapered | source/filtering/TaperedCosineWindowFilter.cpp:40-72 | succeeds exactly for an unconstructed array of the right size; element j is the window at offset j |
| Filters.TaperedBounded | source/filtering/TaperedCosineWindowFilter.cpp:53-70 | every window value lies in [0, 1] |
| Filters.TaperedNyquistZero | source/filtering/TaperedCosineWindowFilter.cpp:65-70 | the Nyquist term of an even-length window is 0 |
| Convolution.NewFilterer | source/filtering/ProjectionFilterer.hpp:60-63 | a new filterer has spacing 1, weight 1, no smoothing and no kernel |
| Convolution.Initialize | source/filtering/ProjectionFilterer_Convolution.cpp:29-42 | refuses an existing kernel, smoothing or an empty row; otherwise builds a ramp kernel of length 2·cols and nothing else changes |
| Convolution.KernelAtDistance | source/filtering/ProjectionFilterer_Convolution.cpp:38-41 | kernel element d is the ramp value at distance d |
| Convolution.FilterCell | source/filtering/ProjectionFilterer_Convolution.cpp:63-70 | one output pixel is the sum over the row of pixel × kernel at their distance |
| Convolution.FilterRow | source/filtering/ProjectionFilterer_Convolution.cpp:63-70 | the double loop computes the filtered row |
| Convolution.FilterProjection | source/filtering/ProjectionFilterer_Convolution.cpp:45-72 | succeeds exactly when the kernel exists and the shapes agree; each row of the output is the filtered input row |
| Convolution.ZeroRowFiltersToZero | source/filtering/ProjectionFilterer_Convolution.cpp:60-70 | a zero row filters to zero |
| Convolution.FilterAdditive | source/filtering/ProjectionFilterer_Convolution.cpp:63-70 | filtering is additive |
| Convolution.TapImpulse | source/filtering/ProjectionFilterer_Convolution.cpp:63-70 | an impulse filters to the kernel at the distance from it |
| LinearFit.SumLoop | source/util/LinearFit.cpp:26-32 | the loop computes Σx |
| LinearFit.SumSqrLoop | source/util/LinearFit.cpp:35-41 | the loop computes Σx² |
| LinearFit.SumProdLoop | source/util/LinearFit.cpp:44-50 | the loop computes Σxy |
| LinearFit.Fit | source/util/LinearFit.cpp:56-79 | fails exactly on unconstructed, unequal or too-short input; otherwise returns the least-squares line |
| LinearFit.Solution | source/util/LinearFit.cpp:76-78 | the Cramer solution satisfies the normal equations |
| LinearFit.CramerSolves | source/util/LinearFit.cpp:76-78 | the closed form solves the 2×2 system |
| LinearFit.CramerUnique | source/util/LinearFit.cpp:76-78 | and is its only solution |
| LinearFit.NormalUnique | source/util/LinearFit.cpp:56-79 | the normal equations have one solution when det ≠ 0 |
| LinearFit.FitOfCollinear | source/util/tests/LinearFitTests.cpp:16-58 | points on a line fit that line exactly |
| LinearFit.FitRecoversLine | source/util/LinearFit.cpp:56-79 | residuals orthogonal to 1 and x leave the line recovered |
| LinearFit.DetNonNegative | source/util/LinearFit.cpp:76 | n·Σx² − (Σx)² ≥ 0 |
| LinearFit.DetZeroOfConstant | source/util/LinearFit.cpp:76 | constant x gives det 0 (why the C++ would divide by zero) |
| LinearFit.DetAtLeast | source/util/LinearFit.cpp:76 | det is at least the square of the difference of any two x's |
| BeamPower.ShiftProjection | source/projection_correction/BeamPowerCorrector.hpp:43-56 | every pixel lowered by the shift; shape and geometry kept |
| BeamPower.ShiftKeepsDifferences | source/projection_correction/BeamPowerCorrector.hpp:43-56 | a uniform shift keeps differences between pixels |
| BeamPower.ProcessProjection | source/projection_correction/BeamPowerCorrector.hpp:43-52 | every pixel lowered by the returned shift; manual shift is constant + linear·index |
| BeamPower.SetReferenceProjection | source/projection_correction/ConstantAttenuationBeamPowerCorrector.hpp:63-67 | only the constant-attenuation corrector records the reference's total |
| BeamPower.ConstantAttenuationMatchesReference | source/projection_correction/ConstantAttenuationBeamPowerCorrector.hpp:27-48 | afterwards the total equals the reference total less n·constant |
| BeamPower.NullEdgeZeroesEdges | source/projection_correction/NullProjectionEdgeBeamPowerCorrector.hpp:28-45 | afterwards the edge strips average 0 |
| BeamPower.ReferenceShiftedByConstantOnly | source/projection_correction/ConstantAttenuationBeamPowerCorrector.hpp:63-69 | the reference itself is shifted by the constant term alone |
| BeamPower.DefaultManualIsIdentity | source/projection_correction/ManualBeamPowerCorrector.hpp:27-45 | default terms leave projections unchanged |
| BeamPower.ManualExample | source/projection_correction/tests/ManualBeamPowerCorrectorTests.cpp:20-35 | 0.5 + 3·9 = 27.5 is subtracted |
| BeamPower.ConstantAttenuationExample | source/projection_correction/tests/ConstantAttenuationBeamPowerCorrectorTests.cpp:20-53 | a 2×4 example |
| BeamPower.NullEdgeExample | source/projection_correction/tests/NullProjectionEdgeBeamPowerCorrectorTests.cpp:20-41 | a 2×4 example |
| BeamPower.WiderBorderExample | source/projection_correction/tests/NullProjectionEdgeBeamPowerCorrectorTests.cpp:42-62 | a 2×6 example with a wider bright band |
| NeighborhoodWalker.Offset | source/projection_correction/NeighborhoodWalker.hpp:28-39 | the step of a cursor lies on the ring of its radius |
| NeighborhoodWalker.CursorOf | source/projection_correction/NeighborhoodWalker.hpp:28-39 | every non-zero step has a cursor on its ring |
| NeighborhoodWalker.CursorOfOffset | source/projection_correction/NeighborhoodWalker.hpp:28-39 | cursors and steps are in bijection (one direction) |
| NeighborhoodWalker.OffsetOfCursor | source/projection_correction/NeighborhoodWalker.hpp:28-39 | and the other direction |
| NeighborhoodWalker.NoRepeats | source/projection_correction/NeighborhoodWalker.hpp:28-39 | no location is visited twice |
| NeighborhoodWalker.MovesOutward | source/projection_correction/NeighborhoodWalker.hpp:28-39 | the walk never moves to a nearer ring |
| NeighborhoodWalker.Next | source/projection_correction/NeighborhoodWalker.hpp:63-64 | the next cursor, skipping none |
| NeighborhoodWalker.NewWalker | source/projection_correction/NeighborhoodWalker.hpp:55-56 | a new walker starts at the first cursor |
| NeighborhoodWalker.GetNextLocation | source/projection_correction/NeighborhoodWalker.hpp:59-64 | returns the first location inside the image at or after the current cursor |
| NeighborhoodWalker.InteriorWalkExample | source/projection_correction/tests/NeighborhoodWalkerTests.cpp:20-76 | the first ring around (6,6) in order |
| NeighborhoodWalker.CornerWalkExample | source/projection_correction/tests/NeighborhoodWalkerTests.cpp:77-107 | locations outside the image are skipped |
| PixelInterpolator.Trunc | source/back_projection/PixelInterpolator.hpp:62-65 | the C++ cast truncates toward zero |
| PixelInterpolator.NearestIndex | source/back_projection/PixelInterpolator.hpp:62-65 | the nearest index lies in range and its cell contains the coordinate |
| PixelInterpolator.LowerIndex | source/back_projection/PixelInterpolator.hpp:102-113 | the lower index and fraction locate the coordinate between two pixels |
| PixelInterpolator.Nearest | source/back_projection/PixelInterpolator.hpp:51-67 | 0 outside the exterior extent; otherwise the value of the pixel whose cell contains the point |
| PixelInterpolator.Bilinear | source/back_projection/PixelInterpolator.hpp:91-114 | 0 outside the interior extent |
| PixelInterpolator.BilinearBetween | source/back_projection/PixelInterpolator.hpp:102-113 | inside, the value mixes the four surrounding pixels by the fractions |
| PixelInterpolator.BilinearWithFallback | source/back_projection/PixelInterpolator.hpp:137-164 | bilinear inside, nearest in the border band, 0 outside |
| PixelInterpolator.NearestReadsItsCell | source/back_projection/PixelInterpolator.hpp:51-67 | a point in pixel (i,j)'s cell reads that pixel |
| PixelInterpolator.CellUnique | source/back_projection/PixelInterpolator.hpp:62-65 | a point lies in one cell only |
| PixelInterpolator.BilinearAtPixelCentre | source/back_projection/PixelInterpolator.hpp:91-114 | at a pixel centre, bilinear gives that pixel |
| PixelInterpolator.InterpolatorExamples | source/back_projection/tests/PixelInterpolatorTests.cpp:42-108 | values on a 4×4 test image |
| PixelInterpolator.FallbackExamples | source/back_projection/tests/PixelInterpolatorTests.cpp:109-133 | values on a 2×2 image |
| RayTracer.Intersect | source/back_projection/RayTracer.hpp:50-58 | u is the point's z |
| RayTracer.RayMeetsOnce | source/back_projection/RayTracer.hpp:38-49 | all points on one ray meet the projection at the same place |
| RayTracer.AxisMapsToCentre | source/back_projection/RayTracer.hpp:38-49 | the rotation axis meets the projection at its centre line |
| RayTracer.IntersectLinear | source/back_projection/RayTracer.hpp:50-58 | v is linear in the point |
| RayTracer.RayTracerExamples | source/back_projection/tests/RayTracerTests.cpp:17-135 | three angles |
| Subvolumer.SlabSize | source/util/Subvolumer.hpp:27-38 | each slab has ⌊d/n⌋ or ⌊d/n⌋+1 slices |
| Subvolumer.Subvolumes | source/util/Subvolumer.hpp:56-71 | n slabs, sharing the other dimensions and origins |
| Subvolumer.SizesSumToDepth | source/util/Subvolumer.hpp:27-38 | slab sizes add up to the depth |
| Subvolumer.SlabOf | source/util/Subvolumer.hpp:27-38 | every slice lies in a slab |
| Subvolumer.SlabOfUnique | source/util/Subvolumer.hpp:27-38 | and in one slab only |
| Subvolumer.SlabsBalanced | source/util/Subvolumer.hpp:27-38 | slab sizes differ by at most one |
| Subvolumer.OriginsAdvance | source/util/Subvolumer.hpp:62-65 | each slab starts where the previous one ends |
| Subvolumer.OneSlabIsWhole | source/util/Subvolumer.hpp:56-59 | one slab is the whole volume |
| Subvolumer.SubvolumerExamples | source/util/tests/SubvolumerTests.cpp:29-178 | two splits |
| AlignConvergence.DefaultChecker | tools/imagej/Align_Projections/src/Align_Projections.java:636-655 | the default thresholds are positive, relative above absolute, both below 10⁻⁴ |
| AlignConvergence.PhaseOneChecker | tools/imagej/Align_Projections/src/Align_Projections.java:380-381 | the phase-one checker has higher thresholds than the default |
| AlignConvergence.Converged | tools/imagej/Align_Projections/src/Align_Projections.java:675-686 | a stop request makes the check pass |
| AlignConvergence.EqualValuesConverge | tools/imagej/Align_Projections/src/Align_Projections.java:681-685 | equal values pass unless both tests are off |
| AlignConvergence.RelativeEitherValue | tools/imagej/Align_Projections/src/Align_Projections.java:681-685 | the relative test is "within rel of either magnitude" |
| AlignConvergence.AbsoluteDisabled | tools/imagej/Align_Projections/src/Align_Projections.java:657-673 | a negative absolute threshold leaves only the relative test |
| AlignConvergence.RelativeDisabled | tools/imagej/Align_Projections/src/Align_Projections.java:657-673 | a negative relative threshold leaves only the absolute test and two zeros |
| AlignConvergence.BothDisabled | tools/imagej/Align_Projections/src/Align_Projections.java:657-686 | with both off only two zeros pass |
| AlignConvergence.ConvergedSymmetric | tools/imagej/Align_Projections/src/Align_Projections.java:681-685 | the test is symmetric in the two values |
| AlignConvergence.ConvergedMonotone | tools/imagej/Align_Projections/src/Align_Projections.java:681-685 | raising thresholds only adds passing pairs |
| AlignConvergence.PhaseOneIsCoarser | tools/imagej/Align_Projections/src/Align_Projections.java:380-409 | whatever the default checker passes, the phase-one checker passes |
| AlignConvergence.PhaseOneExamples | tools/imagej/Align_Projections/src/Align_Projections.java:380-381 | 1 and 1.00001 pass, 1 and 1.001 do not |
| AlignCorrelation.CrossCorrelation | tools/imagej/Align_Projections/src/Align_Projections.java:295-325 | NaN (None) exactly for empty images or zero deviation; otherwise in [−1, 1] |
| AlignCorrelation.NaNIffConstant | tools/imagej/Align_Projections/src/Align_Projections.java:305-322 | NaN if and only if either image is constant |
| AlignCorrelation.ZeroVarianceIffConstant | tools/imagej/Align_Projections/src/Align_Projections.java:305-318 | zero variance if and only if the image is constant |
| AlignCorrelation.CauchySchwarz | tools/imagej/Align_Projections/src/Align_Projections.java:319-322 | (Σxy)² ≤ Σx²·Σy² |
| AlignCorrelation.CorrelationBounded | tools/imagej/Align_Projections/src/Align_Projections.java:319-322 | the correlation quotient lies in [−1, 1] |
| AlignCorrelation.CorrelationSymmetric | tools/imagej/Align_Projections/src/Align_Projections.java:295-325 | swapping the images keeps the correlation |
| AlignCorrelation.SelfCorrelationIsOne | tools/imagej/Align_Projections/src/Align_Projections.java:295-325 | an image correlates 1 with itself |
| AlignCorrelation.NegatedCorrelationIsMinusOne | tools/imagej/Align_Projections/src/Align_Projections.java:295-325 | and −1 with its negation |
| AlignCorrelation.ConstantImageIsNaN | tools/imagej/Align_Projections/src/Align_Projections.java:305-322 | a constant image gives NaN |
| AlignGeometry.InitialCentre | tools/imagej/Align_Projections/src/Align_Projections.java:88-94 | the middle of the width, 50 with no image |
| AlignGeometry.AxisShift | tools/imagej/Align_Projections/src/Align_Projections.java:235 | the shift moves the centre to the middle column |
| AlignGeometry.NoShiftIffCentred | tools/imagej/Align_Projections/src/Align_Projections.java:235-236 | no shift if and only if the centre is the middle column |
| AlignGeometry.BorderRegion | tools/imagej/Align_Projections/src/Align_Projections.java:238-241 | the ROI leaves the horizontal border on both sides and the top and bottom borders |
| AlignGeometry.Mirror | tools/imagej/Align_Projections/src/Align_Projections.java:245-248 | mirroring negates shifts and rotations, leaves crops |
| AlignGeometry.MirrorInvolution | tools/imagej/Align_Projections/src/Align_Projections.java:245-248 | mirroring twice is the identity |
| AlignGeometry.LastMirrorsFirst | tools/imagej/Align_Projections/src/Align_Projections.java:231-254 | the last image gets a flip then the mirror of the first image's steps |
| AlignGeometry.SameOutputSize | tools/imagej/Align_Projections/src/Align_Projections.java:231-254 | both images come out the full size less the borders |
| AlignGeometry.BorderRegionInside | tools/imagej/Align_Projections/src/Align_Projections.java:238-252 | the ROI is inside the image if and only if the borders are non-negative and leave a pixel |
| AlignGeometry.WideBorderExample | tools/imagej/Align_Projections/src/Align_Projections.java:238-241 | a border of 6 on width 10 asks for width −2 |
| AlignOverlay.MinOf | tools/imagej/Align_Projections/src/Align_Projections.java:272-275 | the minimum, attained |
| AlignOverlay.MaxOf | tools/imagej/Align_Projections/src/Align_Projections.java:272-275 | the maximum, attained |
| AlignOverlay.Component | tools/imagej/Align_Projections/src/Align_Projections.java:276-284 | a channel value in 0..255 |
| AlignOverlay.ComponentMonotone | tools/imagej/Align_Projections/src/Align_Projections.java:276-284 | brighter pixels are never darker in their channel |
| AlignOverlay.ComponentEnds | tools/imagej/Align_Projections/src/Align_Projections.java:276-284 | the minimum maps to 0 and the maximum to 255 |
| AlignOverlay.UnpackPack | tools/imagej/Align_Projections/src/Align_Projections.java:285-286 | packing then reading channels gives red, green = blue |
| AlignOverlay.PackUnpack | tools/imagej/Align_Projections/src/Align_Projections.java:285-286 | a 24-bit value with green = blue is the packing of its channels |
| AlignOverlay.Overlay | tools/imagej/Align_Projections/src/Align_Projections.java:270-293 | one pixel per input pixel |
| AlignOverlay.OverlayChannels | tools/imagej/Align_Projections/src/Align_Projections.java:282-287 | red is the first image's channel value, green and blue the last's |
| AlignOverlay.OverlayKeepsOrder | tools/imagej/Align_Projections/src/Align_Projections.java:282-287 | brighter first-image pixels are no less red |
| AlignOverlay.OverlayRedEnds | tools/imagej/Align_Projections/src/Align_Projections.java:272-287 | the darkest pixel has no red and the brightest full red |
| AlignOverlay.ConstantProjectionIsDark | tools/imagej/Align_Projections/src/Align_Projections.java:276-284 | a constant last image contributes 0 to green and blue |
| AlignTuning.TuningWeights | tools/imagej/Align_Projections/src/Align_Projections.java:449-451 | centre weight 1, angle weight π·width/360 |
| AlignTuning.WeightsPositive | tools/imagej/Align_Projections/src/Align_Projections.java:449-451 | both weights positive for an open image |
| AlignTuning.UnweighWeigh | tools/imagej/Align_Projections/src/Align_Projections.java:191-192 | unweighing undoes weighing |
| AlignTuning.WeighUnweigh | tools/imagej/Align_Projections/src/Align_Projections.java:377-379 | weighing undoes unweighing |
| AlignTuning.Record | tools/imagej/Align_Projections/src/Align_Projections.java:189-203 | an evaluation leaves the settings at its point and the correlation at its value |
| AlignTuning.Conclude | tools/imagej/Align_Projections/src/Align_Projections.java:386-421 | an optimisation never changes the stop flag |
| AlignTuning.Tune | tools/imagej/Align_Projections/src/Align_Projections.java:367-435 | phase one from the weighted settings; phase two from the same point exactly when not cancelled and phase one did not fail; the stop flag ends up set exactly then |
| AlignTuning.SecondPhaseDecides | tools/imagej/Align_Projections/src/Align_Projections.java:401-421 | a returning second phase decides the result |
| AlignTuning.FirstPhaseIrrelevant | tools/imagej/Align_Projections/src/Align_Projections.java:401-414 | the first phase's result does not matter when the second phase returns |
| AlignTuning.CancelKeepsFirstPhase | tools/imagej/Align_Projections/src/Align_Projections.java:395-399 | a cancelled run keeps the first phase's point |
| AlignTuning.NothingEvaluated | tools/imagej/Align_Projections/src/Align_Projections.java:395-399 | with no evaluation the settings are unchanged |

## Left out

- Floating point: `float` and `double` are exact reals. Rounding,
  NaN propagation and infinities are not modelled. Where the source
  relies on NaN (cross-correlation of a constant image, a zero overlay
  range), the model names the case explicitly.
- Integer `Tuple` arithmetic: the element-wise operators are modelled on
  real tuples only. Integer tuples reuse the same definitions on
  unbounded integers, and the wrap-around of `int`, `unsigned` and
  `size_t` element types is not modelled. Only `long_product`'s `size_t`
  product is reduced modulo 2^64.
- Tuple `norm`: left out, because it calls `sqrt`.
- LinearFit.Fit: requires `Det ≠ 0` for a valid input. The source
  divides by the determinant at source/util/LinearFit.cpp:76-78, and
  with a zero determinant it divides by zero in `double`, giving inf or
  NaN. That case is not modelled.
- Filters.ConstructRealSpaceFilter: requires spacing ≠ 0. The source
  divides by the spacing squared. With zero spacing the C++ produces
  inf or NaN, which is not modelled.
- Filters.ConstructGaussian: requires sigma ≠ 0. The source divides by
  sigma squared, so with a zero sigma the C++ gives inf or NaN.
  Filters.SetRadius likewise requires radius · π ≠ 0.
- RANGE_CHECKING: the containers are modelled as compiled with
  `RANGE_CHECKING` defined. `ArrayModel.At`, the `ptr()` test behind
  `ArrayModel.Copy`, and `Convolution`'s index check report "Array is not
  constructed." or "Array index out of bounds." as those builds do.
  Without the macro the checks are absent and such an access is
  undefined behaviour, which is not modelled.
- ArrayModel.Construct: a failing `new` ("Unable to allocate memory.",
  bonelab/Array.hpp:136-139) is not modelled, because memory is
  unbounded here.
- PixelInterpolator.Bilinear: requires `NoEmptyReversedAxis`, that no
  axis has zero pixels together with negative spacing. There the C++
  lower index comes out as -1 and it would read before the first pixel,
  which is undefined behaviour.
- PixelInterpolator.BilinearWithFallback: inherits the same requires
  from `Bilinear`, for the same reason.
- ReconConfig.ToIndex: a `double` outside the `int64_t` range converts
  to a value C++ leaves undefined. `ReconConfig.DefaultExtent` divides by
  the voxel spacing, and a zero spacing gives inf or NaN before that
  conversion. Both cases are the parameter `Env.unrepresentableIndex`.
  Reals are exact, so a product that `double` would round just below a
  half may round differently here.
- BeamPower: the `.txx` bodies of the correctors are not part of this
  model. The shift is taken to be subtracted. The integration helpers
  are modelled from the headers' documentation and tests.
- BeforeAndAfterBrightFieldBeamPowerCorrector: left out, because it
  needs the bright-field projections read from files.
- NeighborhoodWalker.GetNextLocation: requires that some cell at or
  after the walker's next one lies inside the image (the ghost
  `target`). Without one the C++ search loop never ends, and that
  non-termination is not modelled.
- NeighborhoodWalker, Subvolumer: the `.txx` bodies are not part of this
  model. The walk order and the slab split follow the headers'
  documentation and tests.
- BadPixelCorrector, AttenuationCalculator: left out (per-pixel
  logarithms over I/O buffers).
- AlignCorrelation.CrossCorrelation: `Math.sqrt` is a parameter. The
  caller supplies the standard deviations, with `IsStdDev` relating
  each to its variance.
- AlignOverlay.Component: computed in exact reals. Java's single
  precision product is not modelled, so a value whose exact stretch is
  an integer may differ by one from Java's.
- AlignGeometry: ImageJ's translate, rotate, flip and crop are kept
  symbolic as steps. Their pixel effect and the clipping of an ROI
  outside the image are not modelled.
- AlignTuning.Tune: the Powell optimiser is a parameter reporting how
  each call ended. Tune requires a positive stack width and π > 0.
  `cancelled` stands for the user pressing "Stop Optimizing" during
  phase one. `GetMeOuttaHereException` is never thrown, because its
  throw in `value()` is commented out. The model still allows the
  escape that `run()` catches.
- AlignConvergence: `MathUtils.EPSILON` and `SAFE_MIN` are written as
  2^-53 and 2^-1022.
- The ImageJ user interface, the Apply and Save actions, and the
  listeners are left out.
- Threads, message queues, FFTW and vDSP filterers, MetaImage and raw
  readers and writers, `sysinfo`, and the reconstruction launcher are
  left out (I/O, concurrency, foreign libraries).
- ConfReader.ReadConf: reads a string. Stream errors are not modelled.
- ConfWriter.WriteConf: returns the whole text or an error. When the C++
  throws part-way through a tree, the lines it has already written to
  the stream stay there; the model does not return that partial
  output.

## Findings

| source | as written | input that shows it | evidently intended | confidence | as-written member | corrected member |
|---|---|---|---|---|---|---|
| bonelab/Tuple.hpp:511-512 | reading an unbracketed tuple asserts that the character after the last element is a space or end of input; the configuration check reads tuples this way, so `100,200x` fails with "Assertion failure" (ReconParams.TrailingTextExample) | `1,2,3x` read as a 3-tuple | set failbit on malformed input, as the other error paths do | not executed | TupleText.UnbracketedTrailingTextAsserts | TupleText.Read |
| source/ReconConfiguration.cpp:477-478 | `value *= factor` on `int64` overflows (undefined behaviour in C++; on common targets it wraps) and the wrapped value passes the positivity assertion | `MaximumVolumeMemory = 17592186044417 MB` (just above 2^44 MB) | refuse a size whose byte count does not fit in `int64` | not executed | MemoryValue.WrappedAmountAccepted | MemoryValue.OverflowRejected |
| bonelab/endian.hpp:42-60 | the swap loop writes bytes `i` and `size-1-i` only for `i < size/2`, so for an odd size the middle byte of the result is never written and is indeterminate | a one-byte `char` passed to `SwapBytes`, or converted by `EndianConversion` between different orders (Endian.ConvertValue) | reverse the bytes, leaving the middle one in place | not executed | Endian.OneByteSwapAsWritten | Endian.SwapBytes |
