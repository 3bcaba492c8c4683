/** The Software section and the whole validation
    (ReconConfiguration::VerifyConfiguration, source/ReconConfiguration.cpp:171-428).

    Which FFT libraries the program was built with (USE_VDSP, USE_FFTW) is
    part of the environment.  The stages run in the program's order; each
    writes only into its own section, so keys checked by an earlier stage
    keep their text. */
module ReconVerify {
  import opened Wrappers
  import opened PropTree
  import opened ReconParams
  import opened ReconConfig
  import MemoryValue

  // ---------------------------------------------------------------------
  // Software section (ReconConfiguration.cpp:370-422)

  const SingleThreadedText: string := "SingleThreaded"
  const MultiThreadedText: string := "MultiThreaded"
  const EngineChoices: seq<string> := [SingleThreadedText, MultiThreadedText]
  const EngineMessage: string := "Unrecognized value for Software.Engine"
  /** The program's message, spelling included. */
  const ThreadsMessage: string := "Software.Threads must be a number greate than 0."

  const VdspText: string := "vDSP"
  const ConvolutionText: string := "RealSpaceConvolution"
  const FftwText: string := "FFTW"
  const FilteringChoices: seq<string> := [VdspText, ConvolutionText, FftwText]
  const FilteringMessage: string := "Invalid value for Software.FilteringModule"
  const VdspMissingMessage: string :=
    "vDSP library use requested, but Athabasca Recon has not been compiled with support for that library."
  const FftwMissingMessage: string :=
    "FFTW library use requested, but Athabasca Recon has not been compiled with support for that library."

  const EngineKeys: set<Key> := {Engine}
  const ThreadCountKeys: set<Key> := {Threads}
  const ThreadKeys: set<Key> := {Engine, Threads}
  const MemoryKeys: set<Key> := {MaximumVolumeMemory}
  const FilteringKeys: set<Key> := {FilteringModule}
  const EngineMemoryKeys: set<Key> := {Engine, Threads, MaximumVolumeMemory}
  const SoftwareDefaulted: set<Key> := {Engine, Threads, MaximumVolumeMemory, FilteringModule}

  /** A thread count the program accepts: Automatic, or an int of at least 1. */
  predicate ThreadsValid(t: PTree)
  {
    !Has(t, Threads) || Lookup(t, Threads).value == MemoryValue.AutomaticText ||
    (TypedLookup(t, Threads, ParseInt32).Some? && TypedLookup(t, Threads, ParseInt32).value >= 1)
  }

  /** The thread count, default Automatic; any other text must read as an
      int of at least 1. */
  method ThreadCount(t: PTree) returns (r: Result<PTree>)
    ensures r.Ok? <==> ThreadsValid(t)
    ensures r.Err? ==> r.msg == ParseErrorMessage(Threads) || r.msg == ThreadsMessage
    ensures r.Ok? ==> Has(r.value, Threads) && ThreadsValid(r.value)
    ensures r.Ok? && !Has(t, Threads) ==> Lookup(r.value, Threads) == Some(MemoryValue.AutomaticText)
    ensures r.Ok? ==> Unchanged(t, r.value, ThreadCountKeys) && OnlySection(t, r.value, "Software")
  {
    var th := OptionalParameter(t, Threads, MemoryValue.AutomaticText, ShowString, ParseString).value;
    if th.1 != MemoryValue.AutomaticText {
      var n :- RequireParameter(th.0, Threads, ParseInt32);
      if n < 1 {
        return Err(ThreadsMessage);
      }
    }
    r := Ok(th.0);
  }

  /** The engine, default MultiThreaded; the multi-threaded engine takes a
      thread count. */
  method EngineThreads(t: PTree) returns (r: Result<PTree>)
    ensures r.Ok? <==> (!Has(t, Engine) || Lookup(t, Engine).value in EngineChoices) &&
                       (Lookup(t, Engine) != Some(SingleThreadedText) ==> ThreadsValid(t))
    ensures Has(t, Engine) && Lookup(t, Engine).value !in EngineChoices ==> r == Err(EngineMessage)
    ensures r.Err? ==> r.msg == EngineMessage || r.msg == ParseErrorMessage(Threads) || r.msg == ThreadsMessage
    ensures r.Ok? ==> HasChoice(r.value, Engine, EngineChoices)
    ensures r.Ok? && Lookup(r.value, Engine) == Some(MultiThreadedText) ==> Has(r.value, Threads) && ThreadsValid(r.value)
    ensures r.Ok? && !Has(t, Engine) ==> Lookup(r.value, Engine) == Some(MultiThreadedText)
    ensures r.Ok? && !Has(t, Threads) && Lookup(r.value, Engine) == Some(MultiThreadedText) ==>
              Lookup(r.value, Threads) == Some(MemoryValue.AutomaticText)
    ensures r.Ok? ==> Unchanged(t, r.value, ThreadKeys) && OnlySection(t, r.value, "Software")
  {
    SoftwareKeysDistinct();
    var e :- OptionalChoice(t, Engine, MultiThreadedText, EngineChoices, EngineMessage);
    UnchangedKeeps(t, e.0, EngineKeys, Threads);
    if e.1 != MultiThreadedText {
      r := Ok(e.0);
      return;
    }
    var th :- ThreadCount(e.0);
    UnchangedKeeps(e.0, th, ThreadCountKeys, Engine);
    UnchangedTrans(t, e.0, th, EngineKeys, ThreadCountKeys, ThreadKeys, "Software");
    r := Ok(th);
  }

  /** When a volume is written, the memory limit defaults to Automatic.
      The text is read later (ParseMemoryValue), not here. */
  method VolumeMemory(t: PTree) returns (u: PTree)
    ensures Has(t, VolumeFile) ==> Has(u, MaximumVolumeMemory)
    ensures Has(t, VolumeFile) && !Has(t, MaximumVolumeMemory) ==>
              Lookup(u, MaximumVolumeMemory) == Some(MemoryValue.AutomaticText)
    ensures !Has(t, VolumeFile) || Has(t, MaximumVolumeMemory) ==> u == t
    ensures Unchanged(t, u, MemoryKeys) && OnlySection(t, u, "Software")
  {
    u := t;
    if Has(t, VolumeFile) {
      u := OptionalParameter(t, MaximumVolumeMemory, MemoryValue.AutomaticText, ShowString, ParseString).value.0;
    }
  }

  /** The module the build prefers: vDSP, else FFTW, else convolution. */
  function DefaultFilteringModule(env: Env): (m: string)
    ensures FilteringAvailable(m, env)
    ensures m == ConvolutionText <==> !env.vdsp && !env.fftw
  {
    if env.vdsp then VdspText else if env.fftw then FftwText else ConvolutionText
  }

  /** A module the build can run: convolution always, a library when compiled in. */
  predicate FilteringAvailable(m: string, env: Env)
  {
    m == ConvolutionText || (m == VdspText && env.vdsp) || (m == FftwText && env.fftw)
  }

  /** The filtering module, needed unless filtered projections are the input. */
  method Filtering(t: PTree, env: Env) returns (r: Result<PTree>)
    ensures Has(t, InputFilteredFile) ==> r == Ok(t)
    ensures r.Ok? <==> Has(t, InputFilteredFile) || !Has(t, FilteringModule) ||
                       FilteringAvailable(Lookup(t, FilteringModule).value, env)
    ensures (!Has(t, InputFilteredFile) && Has(t, FilteringModule) &&
             Lookup(t, FilteringModule).value !in FilteringChoices) ==> r == Err(FilteringMessage)
    ensures (!Has(t, InputFilteredFile) && !env.vdsp &&
             Lookup(t, FilteringModule) == Some(VdspText)) ==> r == Err(VdspMissingMessage)
    ensures (!Has(t, InputFilteredFile) && !env.fftw &&
             Lookup(t, FilteringModule) == Some(FftwText)) ==> r == Err(FftwMissingMessage)
    ensures r.Ok? && !Has(t, InputFilteredFile) ==>
              HasChoice(r.value, FilteringModule, FilteringChoices) &&
              FilteringAvailable(Lookup(r.value, FilteringModule).value, env)
    ensures r.Ok? && !Has(t, FilteringModule) && !Has(t, InputFilteredFile) ==>
              Lookup(r.value, FilteringModule) == Some(DefaultFilteringModule(env))
    ensures r.Ok? ==> Unchanged(t, r.value, FilteringKeys) && OnlySection(t, r.value, "Software")
  {
    if Has(t, InputFilteredFile) {
      return Ok(t);
    }
    var f :- OptionalChoice(t, FilteringModule, DefaultFilteringModule(env), FilteringChoices, FilteringMessage);
    if f.1 == VdspText && !env.vdsp {
      return Err(VdspMissingMessage);
    }
    if f.1 == FftwText && !env.fftw {
      return Err(FftwMissingMessage);
    }
    r := Ok(f.0);
  }

  /** The keys of the section differ from one another (in length), and
      the sets nest. */
  lemma {:induction false} SoftwareKeysDistinct()
    ensures Threads !in EngineKeys && Engine !in ThreadCountKeys
    ensures Engine !in MemoryKeys && Threads !in MemoryKeys && MaximumVolumeMemory !in ThreadKeys
    ensures FilteringModule !in EngineMemoryKeys
    ensures EngineKeys <= ThreadKeys && ThreadCountKeys <= ThreadKeys
    ensures ThreadKeys <= EngineMemoryKeys && MemoryKeys <= EngineMemoryKeys
    ensures EngineMemoryKeys <= SoftwareDefaulted && FilteringKeys <= SoftwareDefaulted
  {
    assert |Engine.name| == 6 && |Threads.name| == 7;
    assert |MaximumVolumeMemory.name| == 19 && |FilteringModule.name| == 15;
  }

  /** What the Software stage reads from other sections is not changed by
      writing into Software. */
  lemma {:induction false} OtherSectionsRead(t: PTree, u: PTree)
    requires OnlySection(t, u, "Software")
    ensures Lookup(u, VolumeFile) == Lookup(t, VolumeFile)
    ensures Lookup(u, InputFilteredFile) == Lookup(t, InputFilteredFile)
  {
    assert Child(u, "Output") == Child(t, "Output");
    assert Child(u, "Input") == Child(t, "Input");
    LookupBySection(t, u, VolumeFile);
    LookupBySection(t, u, InputFilteredFile);
  }

  method CheckSoftware(t: PTree, env: Env) returns (r: Result<PTree>)
    ensures Has(t, Engine) && Lookup(t, Engine).value !in EngineChoices ==> r == Err(EngineMessage)
    ensures r.Ok? ==> HasChoice(r.value, Engine, EngineChoices)
    ensures r.Ok? && Lookup(r.value, Engine) == Some(MultiThreadedText) ==> Has(r.value, Threads) && ThreadsValid(r.value)
    ensures r.Ok? && Has(t, VolumeFile) ==> Has(r.value, MaximumVolumeMemory)
    ensures r.Ok? && !Has(t, InputFilteredFile) ==>
              HasChoice(r.value, FilteringModule, FilteringChoices) &&
              FilteringAvailable(Lookup(r.value, FilteringModule).value, env)
    ensures r.Ok? ==> Unchanged(t, r.value, SoftwareDefaulted) && OnlySection(t, r.value, "Software")
    ensures r.Ok? ==> SectionKnown(r.value, "Software", SoftwareKeys)
  {
    SoftwareKeysDistinct();
    var e :- EngineThreads(t);
    var m := VolumeMemory(e);
    OtherSectionsRead(t, e);
    UnchangedKeeps(e, m, MemoryKeys, Engine);
    UnchangedKeeps(e, m, MemoryKeys, Threads);
    UnchangedTrans(t, e, m, ThreadKeys, MemoryKeys, EngineMemoryKeys, "Software");
    OtherSectionsRead(t, m);
    var f :- Filtering(m, env);
    UnchangedKeeps(m, f, FilteringKeys, Engine);
    UnchangedKeeps(m, f, FilteringKeys, Threads);
    UnchangedKeeps(m, f, FilteringKeys, MaximumVolumeMemory);
    UnchangedTrans(t, m, f, EngineMemoryKeys, FilteringKeys, SoftwareDefaulted, "Software");
    var ok :- CheckSection(f, "Software", SoftwareKeys);
    r := Ok(f);
  }

  // ---------------------------------------------------------------------
  // The whole validation (ReconConfiguration.cpp:171-428)

  /** Every key the validation may write. */
  const AllDefaulted: set<Key> :=
    ProjectionsDefaulted + VolumeDefaulted + ReconstructionDefaulted + SoftwareDefaulted

  /** Every section present holds only whitelisted keys. */
  predicate SectionsKnown(t: PTree)
  {
    SectionKnown(t, "Input", InputKeys) && SectionKnown(t, "Output", OutputKeys) &&
    SectionKnown(t, "Projections", ProjectionsKeys) && SectionKnown(t, "Volume", VolumeKeys) &&
    SectionKnown(t, "Reconstruction", ReconstructionKeys) && SectionKnown(t, "Software", SoftwareKeys)
  }

  /** The four sections that receive defaults, in the program's order. */
  method CheckSections(t: PTree, env: Env) returns (r: Result<PTree>)
    ensures !Has(t, ProjectionDimensions) ==> r == Err(MissingMessage(ProjectionDimensions))
    ensures DimensionsAssert(t) ==> r == Err(AssertionMessage)
    ensures r.Ok? ==> Child(r.value, "Input") == Child(t, "Input") && Child(r.value, "Output") == Child(t, "Output")
    ensures r.Ok? ==> SectionKnown(r.value, "Projections", ProjectionsKeys) &&
                      SectionKnown(r.value, "Volume", VolumeKeys) &&
                      SectionKnown(r.value, "Reconstruction", ReconstructionKeys) &&
                      SectionKnown(r.value, "Software", SoftwareKeys)
    ensures r.Ok? ==> Unchanged(t, r.value, AllDefaulted)
    ensures r.Ok? ==> Has(r.value, CenterPixelU) && Has(r.value, OffsetV) &&
                      HasChoice(r.value, SmoothingFilter, SmoothingChoices) &&
                      HasChoice(r.value, Engine, EngineChoices)
    ensures r.Ok? && Has(t, VolumeFile) ==>
              Has(r.value, VoxelSize) && Has(r.value, VolumeDimensions) && Has(r.value, VolumeOrigin) &&
              HasChoice(r.value, PixelInterpolation, InterpolationChoices) &&
              Has(r.value, MaximumVolumeMemory)
  {
    var p :- CheckProjections(t, env);
    OtherSection(t, p.tree, "Projections", "Output");
    OtherSection(t, p.tree, "Projections", "Input");
    LookupBySection(t, p.tree, VolumeFile);
    var v :- CheckVolume(p.tree, env, p);
    OtherSection(p.tree, v.tree, "Volume", "Output");
    OtherSection(p.tree, v.tree, "Volume", "Input");
    OtherSection(p.tree, v.tree, "Volume", "Projections");
    LookupBySection(p.tree, v.tree, VolumeFile);
    var rc :- CheckReconstruction(v.tree, env);
    OtherSection(v.tree, rc, "Reconstruction", "Output");
    OtherSection(v.tree, rc, "Reconstruction", "Input");
    OtherSection(v.tree, rc, "Reconstruction", "Projections");
    OtherSection(v.tree, rc, "Reconstruction", "Volume");
    LookupBySection(v.tree, rc, VolumeFile);
    var s :- CheckSoftware(rc, env);
    OtherSection(rc, s, "Software", "Output");
    OtherSection(rc, s, "Software", "Input");
    OtherSection(rc, s, "Software", "Projections");
    OtherSection(rc, s, "Software", "Volume");
    OtherSection(rc, s, "Software", "Reconstruction");
    LookupBySection(p.tree, s, CenterPixelU);
    LookupBySection(p.tree, s, OffsetV);
    LookupBySection(v.tree, s, VoxelSize);
    LookupBySection(v.tree, s, VolumeDimensions);
    LookupBySection(v.tree, s, VolumeOrigin);
    LookupBySection(rc, s, SmoothingFilter);
    LookupBySection(rc, s, PixelInterpolation);
    UnchangedThen(t, p.tree, v.tree, ProjectionsDefaulted, VolumeDefaulted, AllDefaulted);
    UnchangedThen(t, v.tree, rc, AllDefaulted, ReconstructionDefaulted, AllDefaulted);
    UnchangedThen(t, rc, s, AllDefaulted, SoftwareDefaulted, AllDefaulted);
    r := Ok(s);
  }

  /** VerifyConfiguration: Input and Output rules, the four sections with
      defaults, then the section names. */
  method VerifyConfiguration(t: PTree, env: Env) returns (r: Result<PTree>)
    ensures InputCount(t) != 1 ==> r == Err(ExactlyOneInputMessage)
    ensures (InputCount(t) == 1 && SectionKnown(t, "Input", InputKeys) &&
             Has(t, InputAttenuationFile) && Has(t, OutputAttenuationFile)) ==> r == Err(BothAttenuationMessage)
    ensures CheckInput(t).Ok? && CheckOutput(t).Ok? && DimensionsAssert(t) ==> r == Err(AssertionMessage)
    ensures r.Ok? ==> InputCount(t) == 1 && !OutputConflict(t)
    ensures r.Ok? ==> Child(r.value, "Input") == Child(t, "Input") && Child(r.value, "Output") == Child(t, "Output")
    ensures r.Ok? ==> SectionsKnown(r.value) && AllKnown(r.value.children, SectionKeys)
    ensures r.Ok? ==> Unchanged(t, r.value, AllDefaulted)
    ensures r.Ok? ==> Has(r.value, CenterPixelU) && Has(r.value, OffsetV) &&
                      HasChoice(r.value, SmoothingFilter, SmoothingChoices) &&
                      HasChoice(r.value, Engine, EngineChoices)
  {
    var i :- CheckInput(t);
    var o :- CheckOutput(t);
    var s :- CheckSections(t, env);
    var ok :- CheckForUnknown(s.children, None, SectionKeys);
    r := Ok(s);
  }
}
