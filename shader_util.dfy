/** The GLSL-to-SPIR-V compile path of the Vulkan renderer: the stage
    mapping, the one-shot glslang initialisation and Compile, which consults
    the on-disk blob cache before running the compiler.

    glslang (InitializeProcess, TShader::parse, TProgram::link,
    GlslangToSpv) and the device (createShaderModule) are oracles handed in
    as values. The function-local statics of the C++ code, the cache and
    the initialisation flag, are the fields of a CompilerContext object. */
module ShaderUtil {
  import opened Common
  import opened ShaderCacheFiles

  // vk::ShaderStageFlagBits values of the six stages ToEshShaderStage knows.
  const Vertex: StageFlags := 0x1
  const TessellationControl: StageFlags := 0x2
  const TessellationEvaluation: StageFlags := 0x4
  const Geometry: StageFlags := 0x8
  const Fragment: StageFlags := 0x10
  const Compute: StageFlags := 0x20

  /** The directory of the cache Compile keeps. */
  const ShaderCacheDirectory: string := "user/shader_cache"

  /** The glslang languages ToEshShaderStage produces. */
  datatype EShLanguage =
    | EShLangVertex
    | EShLangTessControl
    | EShLangTessEvaluation
    | EShLangGeometry
    | EShLangFragment
    | EShLangCompute

  predicate IsSupportedStage(stage: StageFlags) {
    stage in {Vertex, Geometry, TessellationControl, TessellationEvaluation, Fragment, Compute}
  }

  /** Any other stage hits UNREACHABLE in the C++ code, so it is a precondition. */
  function ToEshShaderStage(stage: StageFlags): (lang: EShLanguage)
    requires IsSupportedStage(stage)
    ensures StageOfLanguage(lang) == stage
  {
    if stage == Vertex then EShLangVertex
    else if stage == Geometry then EShLangGeometry
    else if stage == TessellationControl then EShLangTessControl
    else if stage == TessellationEvaluation then EShLangTessEvaluation
    else if stage == Fragment then EShLangFragment
    else EShLangCompute
  }

  /** The stage flag a glslang language stands for (the reverse table). */
  function StageOfLanguage(lang: EShLanguage): (stage: StageFlags)
    ensures IsSupportedStage(stage)
  {
    match lang
    case EShLangVertex => Vertex
    case EShLangTessControl => TessellationControl
    case EShLangTessEvaluation => TessellationEvaluation
    case EShLangGeometry => Geometry
    case EShLangFragment => Fragment
    case EShLangCompute => Compute
  }

  /** Every language is reached, from the stage the reverse table names. */
  lemma ToEshShaderStageSurjective(lang: EShLanguage)
    ensures ToEshShaderStage(StageOfLanguage(lang)) == lang
  {
  }

  /** No two supported stages compile as the same language. */
  lemma ToEshShaderStageInjective(a: StageFlags, b: StageFlags)
    requires IsSupportedStage(a) && IsSupportedStage(b)
    ensures ToEshShaderStage(a) == ToEshShaderStage(b) <==> a == b
  {
  }

  // ---------------------------------------------------------------------
  // Oracles
  // ---------------------------------------------------------------------

  /** glslang as seen by Compile: whether parsing and linking the source as
      the given language succeed, and the SPIR-V words GlslangToSpv emits. */
  datatype Toolchain = Toolchain(
    parse: (string, EShLanguage) -> bool,
    link: (string, EShLanguage) -> bool,
    glslangToSpv: (string, EShLanguage) -> seq<u32>)

  /** vk::Device::createShaderModule, reached through CompileSPV. */
  datatype Device = Device(createShaderModule: seq<u32> -> ShaderModule)

  // ---------------------------------------------------------------------
  // InitializeCompiler
  // ---------------------------------------------------------------------

  /** The outcome of one InitializeCompiler call: its result, the new flag,
      and whether glslang::InitializeProcess was called. */
  datatype InitEffect = InitEffect(ok: bool, initialized: bool, processInitCalled: bool)

  /** `processInitOk` is what glslang::InitializeProcess returns if called. */
  function InitializeCompilerStep(initialized: bool, processInitOk: bool): (e: InitEffect)
    ensures e.ok == e.initialized
    ensures e.ok <==> initialized || processInitOk
    ensures e.processInitCalled <==> !initialized
  {
    if initialized then InitEffect(true, true, false)
    else if !processInitOk then InitEffect(false, false, true)
    else InitEffect(true, true, true)
  }

  /** Once InitializeCompiler has returned true, every later call returns
      true without calling InitializeProcess, whatever it would answer. */
  lemma InitializeCompilerOnce(initialized: bool, first: bool, later: bool)
    requires InitializeCompilerStep(initialized, first).ok
    ensures var e := InitializeCompilerStep(InitializeCompilerStep(initialized, first).initialized, later);
            e.ok && !e.processInitCalled
  {
  }

  /** A failed InitializeProcess leaves the flag down, so the next call retries. */
  lemma InitializeCompilerRetries(first: bool, later: bool)
    requires !first
    ensures !InitializeCompilerStep(false, first).ok
    ensures var e := InitializeCompilerStep(InitializeCompilerStep(false, first).initialized, later);
            e.processInitCalled && e.ok == later
  {
  }

  // ---------------------------------------------------------------------
  // Compile
  // ---------------------------------------------------------------------

  /** The outcome of one Compile call: the module (None is nullptr), the
      files afterwards, the new initialisation flag and whether
      glslang::InitializeProcess was called. */
  datatype CompileEffect = CompileEffect(
    shaderModule: Option<ShaderModule>, files: Files, initialized: bool, processInitCalled: bool)

  /** The C++ code reaches ToEshShaderStage only on a cache miss after a
      successful initialisation; there the stage must be a supported one. */
  predicate StageMappable(cache: ShaderCache, h: StringHash, files: Files, initialized: bool,
                          processInitOk: bool, code: string, stage: StageFlags)
  {
    || IsSupportedStage(stage)
    || ReadWords(files, cache.EntryPath(h, code, stage)) != []
    || !InitializeCompilerStep(initialized, processInitOk).ok
  }

  function CompileStep(cache: ShaderCache, h: StringHash, files: Files, initialized: bool,
                       processInitOk: bool, tools: Toolchain, device: Device,
                       code: string, stage: StageFlags): (e: CompileEffect)
    requires StageMappable(cache, h, files, initialized, processInitOk, code, stage)
    // InitializeProcess is called exactly on a miss while the flag is down
    ensures e.processInitCalled <==> !initialized && ReadWords(files, cache.EntryPath(h, code, stage)) == []
    // a hit leaves the flag alone; after a miss it is up exactly when it was
    // up already or InitializeProcess succeeded, whatever parse and link do
    ensures ReadWords(files, cache.EntryPath(h, code, stage)) != [] ==> e.initialized == initialized
    ensures ReadWords(files, cache.EntryPath(h, code, stage)) == [] ==> (e.initialized <==> initialized || processInitOk)
    // the one possible write is a save of the lowered words under (code, stage),
    // made only when a module is returned after initialisation succeeded
    ensures e.files == files
         || (&& e.shaderModule.Some? && e.initialized && IsSupportedStage(stage)
             && e.files == WriteWords(files, cache.EntryPath(h, code, stage),
                                      tools.glslangToSpv(code, ToEshShaderStage(stage))))
  {
    var cached := ReadWords(files, cache.EntryPath(h, code, stage));
    if cached != [] then
      CompileEffect(Some(device.createShaderModule(cached)), files, initialized, false)
    else
      var init := InitializeCompilerStep(initialized, processInitOk);
      if !init.ok then
        CompileEffect(None, files, init.initialized, init.processInitCalled)
      else
        var lang := ToEshShaderStage(stage);
        if !tools.parse(code, lang) || !tools.link(code, lang) then
          CompileEffect(None, files, init.initialized, init.processInitCalled)
        else
          var spirv := tools.glslangToSpv(code, lang);
          CompileEffect(Some(device.createShaderModule(spirv)),
                        WriteWords(files, cache.EntryPath(h, code, stage), spirv),
                        init.initialized, init.processInitCalled)
  }

  /** A non-empty cache entry is used as is: the module is built from exactly
      the loaded words, and nothing is initialised, compiled or saved. */
  lemma CompileHitSkipsCompiler(cache: ShaderCache, h: StringHash, files: Files,
                                initialized: bool, processInitOk: bool, tools: Toolchain,
                                device: Device, code: string, stage: StageFlags)
    requires ReadWords(files, cache.EntryPath(h, code, stage)) != []
    ensures var e := CompileStep(cache, h, files, initialized, processInitOk, tools, device, code, stage);
            && e.shaderModule == Some(device.createShaderModule(ReadWords(files, cache.EntryPath(h, code, stage))))
            && e.files == files && e.initialized == initialized && !e.processInitCalled
  {
  }

  /** Every failure (initialisation, parse, link) returns nullptr and happens
      before the save, so the files are untouched. */
  lemma CompileFailureLeavesCache(cache: ShaderCache, h: StringHash, files: Files,
                                  initialized: bool, processInitOk: bool, tools: Toolchain,
                                  device: Device, code: string, stage: StageFlags)
    requires StageMappable(cache, h, files, initialized, processInitOk, code, stage)
    ensures var e := CompileStep(cache, h, files, initialized, processInitOk, tools, device, code, stage);
            e.shaderModule == None ==> e.files == files
  {
  }

  /** A miss fails exactly when initialisation, parsing or linking fails. */
  lemma CompileMissFailsIff(cache: ShaderCache, h: StringHash, files: Files,
                            initialized: bool, processInitOk: bool, tools: Toolchain,
                            device: Device, code: string, stage: StageFlags)
    requires IsSupportedStage(stage)
    requires ReadWords(files, cache.EntryPath(h, code, stage)) == []
    ensures var e := CompileStep(cache, h, files, initialized, processInitOk, tools, device, code, stage);
            var lang := ToEshShaderStage(stage);
            e.shaderModule == None <==>
              (!(initialized || processInitOk) || !tools.parse(code, lang) || !tools.link(code, lang))
  {
  }

  /** On a successful miss the words now stored under (code, stage) are the
      very words the returned module was built from. */
  lemma CompileSavesModuleWords(cache: ShaderCache, h: StringHash, files: Files,
                                initialized: bool, processInitOk: bool, tools: Toolchain,
                                device: Device, code: string, stage: StageFlags)
    requires StageMappable(cache, h, files, initialized, processInitOk, code, stage)
    requires ReadWords(files, cache.EntryPath(h, code, stage)) == []
    ensures var e := CompileStep(cache, h, files, initialized, processInitOk, tools, device, code, stage);
            var saved := ReadWords(e.files, cache.EntryPath(h, code, stage));
            e.shaderModule.Some? ==>
              && e.shaderModule == Some(device.createShaderModule(saved))
              && saved == tools.glslangToSpv(code, ToEshShaderStage(stage))
              && e.initialized
  {
  }

  /** The second Compile of the same source and stage after a successful
      first one that left words in the entry is served from the cache: its
      module is built from the same words as the first one's, with no
      compiler, no initialisation and no write. With no words produced, the
      empty entry is a miss and the source is compiled again. */
  lemma {:induction false} SecondCompileHitsCache(cache: ShaderCache, h: StringHash, files: Files,
                               initialized: bool, processInitOk: bool, tools: Toolchain,
                               device: Device, code: string, stage: StageFlags,
                               processInitOk2: bool, tools2: Toolchain)
    requires StageMappable(cache, h, files, initialized, processInitOk, code, stage)
    requires CompileStep(cache, h, files, initialized, processInitOk, tools, device, code, stage).shaderModule.Some?
    ensures var e := CompileStep(cache, h, files, initialized, processInitOk, tools, device, code, stage);
            var spirv := ReadWords(e.files, cache.EntryPath(h, code, stage));
            spirv != [] ==>
              && StageMappable(cache, h, e.files, e.initialized, processInitOk2, code, stage)
              && e.shaderModule == Some(device.createShaderModule(spirv))
              && var e2 := CompileStep(cache, h, e.files, e.initialized, processInitOk2, tools2, device, code, stage);
                 e2 == CompileEffect(Some(device.createShaderModule(spirv)), e.files, e.initialized, false)
  {
    var path := cache.EntryPath(h, code, stage);
    if ReadWords(files, path) == [] {
      CompileSavesModuleWords(cache, h, files, initialized, processInitOk, tools, device, code, stage);
    }
  }

  /** A truncated entry (shorter than one word) is repaired by the next
      successful Compile: afterwards it loads as the freshly compiled words. */
  lemma CompileRepairsTruncatedEntry(cache: ShaderCache, h: StringHash, files: Files,
                                     initialized: bool, processInitOk: bool, tools: Toolchain,
                                     device: Device, code: string, stage: StageFlags)
    requires IsSupportedStage(stage)
    requires var p := cache.EntryPath(h, code, stage); p in files && |files[p]| < 4
    ensures var e := CompileStep(cache, h, files, initialized, processInitOk, tools, device, code, stage);
            e.shaderModule.Some? ==>
              ReadWords(e.files, cache.EntryPath(h, code, stage))
                == tools.glslangToSpv(code, ToEshShaderStage(stage))
  {
    TruncatedFileIsMiss(files, cache.EntryPath(h, code, stage));
  }

  /** A file cut after at least one whole word is not recognised as
      damaged: Compile serves a module built from the surviving whole words,
      whatever the toolchain would do, and leaves the file as it is. */
  lemma CompileServesTruncatedEntry(cache: ShaderCache, h: StringHash, files: Files,
                                    initialized: bool, processInitOk: bool, tools: Toolchain,
                                    device: Device, code: string, stage: StageFlags,
                                    whole: seq<u32>, tail: seq<byte>)
    requires whole != [] && |tail| < 4
    requires var p := cache.EntryPath(h, code, stage);
             p in files && files[p] == EncodeWords(whole) + tail
    ensures var e := CompileStep(cache, h, files, initialized, processInitOk, tools, device, code, stage);
            e.shaderModule == Some(device.createShaderModule(whole)) && e.files == files
  {
    TruncatedFileLoadsWholeWords(files, cache.EntryPath(h, code, stage), whole, tail);
  }

  /** A miss whose InitializeProcess fails returns nullptr, saves nothing
      and leaves the flag down, so the next miss calls InitializeProcess
      again and the flag then follows its answer. */
  lemma CompileInitFailureRetries(cache: ShaderCache, h: StringHash, files: Files,
                                  tools: Toolchain, device: Device, code: string, stage: StageFlags,
                                  processInitOk2: bool, tools2: Toolchain)
    requires IsSupportedStage(stage)
    requires ReadWords(files, cache.EntryPath(h, code, stage)) == []
    ensures var e := CompileStep(cache, h, files, false, false, tools, device, code, stage);
            && e.shaderModule == None && e.files == files
            && !e.initialized && e.processInitCalled
            && var e2 := CompileStep(cache, h, e.files, e.initialized, processInitOk2, tools2, device, code, stage);
               e2.processInitCalled && e2.initialized == processInitOk2
  {
  }

  /** Once a Compile has left the flag up, no later Compile, hit or miss,
      of any source calls InitializeProcess again: the toolchain is started
      at most once per process. */
  lemma CompileInitializesOnce(cache: ShaderCache, h: StringHash, files: Files,
                               initialized: bool, processInitOk: bool, tools: Toolchain,
                               device: Device, code: string, stage: StageFlags,
                               files2: Files, processInitOk2: bool, tools2: Toolchain,
                               code2: string, stage2: StageFlags)
    requires StageMappable(cache, h, files, initialized, processInitOk, code, stage)
    requires CompileStep(cache, h, files, initialized, processInitOk, tools, device, code, stage).initialized
    requires IsSupportedStage(stage2)
    ensures var e := CompileStep(cache, h, files, initialized, processInitOk, tools, device, code, stage);
            var e2 := CompileStep(cache, h, files2, e.initialized, processInitOk2, tools2, device, code2, stage2);
            !e2.processInitCalled && e2.initialized
  {
  }

  /** The function-local statics of the C++ code: the blob cache Compile keeps
      and the glslang initialisation flag. `processInitCalls` counts the
      calls of glslang::InitializeProcess. */
  class CompilerContext {
    const cache: ShaderCache
    var glslangInitialized: bool
    ghost var processInitCalls: nat

    constructor ()
      ensures cache.cacheDirectory == ShaderCacheDirectory && fresh(cache)
      ensures !glslangInitialized && processInitCalls == 0
    {
      cache := new ShaderCache(ShaderCacheDirectory);
      glslangInitialized := false;
      processInitCalls := 0;
    }

    /** `processInitOk` is what glslang::InitializeProcess returns if called. */
    method InitializeCompiler(processInitOk: bool) returns (ok: bool)
      modifies this`glslangInitialized, this`processInitCalls
      ensures var e := InitializeCompilerStep(old(glslangInitialized), processInitOk);
              ok == e.ok && glslangInitialized == e.initialized
              && processInitCalls == old(processInitCalls) + (if e.processInitCalled then 1 else 0)
    {
      if glslangInitialized {
        return true;
      }
      processInitCalls := processInitCalls + 1;
      if !processInitOk {
        return false;
      }
      glslangInitialized := true;
      return true;
    }

    method Compile(code: string, stage: StageFlags, device: Device, tools: Toolchain,
                   processInitOk: bool, h: StringHash, fs: FileSystem)
      returns (shaderModule: Option<ShaderModule>)
      requires StageMappable(cache, h, fs.files, glslangInitialized, processInitOk, code, stage)
      modifies this`glslangInitialized, this`processInitCalls, fs
      ensures var e := CompileStep(cache, h, old(fs.files), old(glslangInitialized), processInitOk,
                                   tools, device, code, stage);
              && shaderModule == e.shaderModule && fs.files == e.files && glslangInitialized == e.initialized
              && processInitCalls == old(processInitCalls) + (if e.processInitCalled then 1 else 0)
    {
      var spirv := cache.LoadShader(fs, h, code, stage);
      if spirv != [] {
        return Some(device.createShaderModule(spirv));
      }

      var initialized := InitializeCompiler(processInitOk);
      if !initialized {
        return None;
      }

      var lang := ToEshShaderStage(stage);
      if !tools.parse(code, lang) {
        return None;
      }
      if !tools.link(code, lang) {
        return None;
      }

      var spirvCode := tools.glslangToSpv(code, lang);
      cache.SaveShader(fs, h, code, stage, spirvCode);
      return Some(device.createShaderModule(spirvCode));
    }
  }
}
