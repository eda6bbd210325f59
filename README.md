# Shader compilation caches of the Vulkan renderer

This project models the caching core of the emulator's Vulkan shader path and
proves properties of the model:

- **The on-disk SPIR-V blob cache** (`Vulkan::ShaderCache`). An entry's key is
  the decimal text of `std::hash` applied to the shader source followed by the
  decimal stage flag. Its file is `<cache_directory>/<key>.spv`. `LoadShader`
  reads the file as whole 32-bit words, or returns no words when the file
  cannot be opened. `SaveShader` truncates the file and rewrites it. The file
  system is a `FileSystem` object holding a map from path to bytes. `std::hash`
  is a parameter `h: string -> u64`. Words are stored little-endian, which is
  what `reinterpret_cast` produces on the x86-64 hosts the emulator runs on.
- **The compile orchestrator** (`Compile`, `InitializeCompiler`,
  `ToEshShaderStage`). A non-empty cache load is turned straight into a shader
  module. Otherwise the one-shot glslang initialisation runs, then parse,
  link, lowering to SPIR-V, the save to the cache, and module creation. Any
  failure returns null (`None`) before the save. glslang and the device are
  oracles passed in as values: `Toolchain` and `Device`, plus a bool for what
  `glslang::InitializeProcess` returns. The function-local statics of
  `Compile`, the cache object and the `glslang_initialized` flag, are the fields
  of a `CompilerContext`. A ghost counter records how often `InitializeProcess`
  is called. `CompileStep` is the pure description of one call, and
  `CompilerContext.Compile` is proved equal to it.
- **The in-memory state of `PipelineCache`**. A `Program` holds its info and
  an append-only list of (module, specialization) permutations. The SPIR-V
  cache is keyed by `(program hash, permutation index)`, and the `SpirvCacheKeyHash`
  bucket hash is an XOR. The class also has the dirty flag, the counters, the
  program and pipeline tables, and the module-to-pipelines index.

Files: `common.dfy` (fixed-width integers, `Option`, `std::to_string` as
`ToDecimal`), `shader_cache.dfy` (vk_shader_cache.h/.cpp), `shader_util.dfy`
(vk_shader_util.cpp), `pipeline_cache.dfy` (vk_pipeline_cache.h).

Behaviours of the code worth knowing:

- The key is built from the source text and the stage alone, as
  `source ++ decimal(stage)` with no separator. No compile options enter it.
- `LoadShader` returns an empty vector, not an optional. A file that exists
  but holds fewer than four bytes is therefore the same miss as a missing file.
- `LoadShader` does not validate what it reads. A file cut after at least one
  whole word loads as the surviving words, and `Compile` builds its module
  from them without recompiling (`TruncatedFileLoadsWholeWords`,
  `CompileServesTruncatedEntry`). Only a file shorter than one word is a miss
  that the next compile repairs.
- A failed toolchain initialisation is not final. The flag stays false, and
  the next `Compile` that misses calls `InitializeProcess` again
  (`CompileInitFailureRetries`). Once it has succeeded, no later `Compile`
  calls it (`CompileInitializesOnce`), even when parsing or linking failed
  after it.
- The key scheme can put two different shaders in the same entry. One way is
  a hash collision. The other is the missing separator: source `"x3"` as a
  tessellation-control shader (flag 2) and source `"x"` as a compute shader
  (flag 32) both hash `"x32"`. `ConcatenationCollision` and
  `HashCollisionSharesEntry` state both cases.

## Model

| member | source | states |
|---|---|---|
| `Common.ToDecimal` | src/video_core/renderer_vulkan/vk_shader_cache.cpp:14 | the `std::to_string` text of an unsigned number is non-empty and all digits, and it starts with '0' only for zero |
| `Common.DecimalRoundTrip` | src/video_core/renderer_vulkan/vk_shader_cache.cpp:14 | reading the decimal text back gives the number, so the rendering loses nothing |
| `Common.ToDecimalInjective` | src/video_core/renderer_vulkan/vk_shader_cache.cpp:14 | two numbers have the same decimal text exactly when they are equal |
| `ShaderCacheFiles.EncodeWords` | src/video_core/renderer_vulkan/vk_shader_cache.cpp:36 | SaveShader writes exactly four bytes per word |
| `ShaderCacheFiles.DecodeWords` | src/video_core/renderer_vulkan/vk_shader_cache.cpp:27-29 | LoadShader reads floor(file size / 4) words |
| `ShaderCacheFiles.DecodeEncode` | src/video_core/renderer_vulkan/vk_shader_cache.cpp:27-36 | reading back what SaveShader wrote gives the saved words |
| `ShaderCacheFiles.EncodeDecode` | src/video_core/renderer_vulkan/vk_shader_cache.cpp:27-29 | the loaded words re-encode to the file's contents without its trailing partial word |
| `ShaderCacheFiles.ReadWords` | src/video_core/renderer_vulkan/vk_shader_cache.cpp:21-30 | a file that cannot be opened loads as no words; otherwise the words encode the file up to its last whole word |
| `ShaderCacheFiles.WriteWords` | src/video_core/renderer_vulkan/vk_shader_cache.cpp:33-37 | after a save, the path exists and loads as exactly the saved words, and every other file is unchanged |
| `ShaderCacheFiles.ShaderCache.constructor` | src/video_core/renderer_vulkan/vk_shader_cache.cpp:8-10 | the cache's only state, `cache_directory`, is the constructor argument |
| `ShaderCacheFiles.ShaderCache.GenerateShaderHash` | src/video_core/renderer_vulkan/vk_shader_cache.cpp:12-15 | the key is a non-empty digit string without leading zeros whose value is the hash of source ++ decimal(stage) |
| `ShaderCacheFiles.ShaderCache.EntryPath` | src/video_core/renderer_vulkan/vk_shader_cache.cpp:22 | the path LoadShader (and SaveShader, :34) uses is the directory, '/', the canonical decimal text of the hash of source ++ decimal(stage), and ".spv" |
| `ShaderCacheFiles.ShaderCache.GetCachePath` | src/video_core/renderer_vulkan/vk_shader_cache.cpp:17-19 | the path splits back into the directory, '/', the key and ".spv" |
| `ShaderCacheFiles.ShaderCache.LoadShader` | src/video_core/renderer_vulkan/vk_shader_cache.cpp:21-31 | returns what the file at the (source, stage) entry path reads as, and changes no file |
| `ShaderCacheFiles.ShaderCache.SaveShader` | src/video_core/renderer_vulkan/vk_shader_cache.cpp:33-37 | the file at the entry path LoadShader uses is replaced by the encoded words, and nothing else changes |
| `ShaderCacheFiles.SameKeyIffSameHash` | src/video_core/renderer_vulkan/vk_shader_cache.cpp:12-15 | two (source, stage) pairs get the same key exactly when their concatenations hash equally |
| `ShaderCacheFiles.SamePathIffSameKey` | src/video_core/renderer_vulkan/vk_shader_cache.cpp:17-19 | in one directory, two keys share a file exactly when they are equal |
| `ShaderCacheFiles.KeyDependsOnConcatenation` | src/video_core/renderer_vulkan/vk_shader_cache.cpp:14 | pairs with equal source ++ decimal(stage) get the same entry path |
| `ShaderCacheFiles.ConcatenationCollision` | src/video_core/renderer_vulkan/vk_shader_cache.cpp:14 | source "x3" with stage flag 2 and source "x" with stage flag 32 share one entry under every hash |
| `ShaderCacheFiles.SaveOtherEntryInvisible` | src/video_core/renderer_vulkan/vk_shader_cache.cpp:33-37 | a save leaves unchanged what every (source, stage) with a different hash loads |
| `ShaderCacheFiles.HashCollisionSharesEntry` | src/video_core/renderer_vulkan/vk_shader_cache.cpp:12-15 | when two concatenations hash equally, each one loads what was saved for the other |
| `ShaderCacheFiles.LastSaveWins` | src/video_core/renderer_vulkan/vk_shader_cache.cpp:33-37 | two saves to one path leave exactly the state of the second save alone |
| `ShaderCacheFiles.TruncatedFileIsMiss` | src/video_core/renderer_vulkan/vk_shader_cache.cpp:27-29 | a file shorter than one word loads as no words, which Compile treats as a miss |
| `ShaderCacheFiles.TruncatedFileLoadsWholeWords` | src/video_core/renderer_vulkan/vk_shader_cache.cpp:25-30 | a file holding whole words followed by fewer than four stray bytes loads as exactly those whole words, not as a miss |
| `ShaderCacheFiles.EncodeWordsInjective` | src/video_core/renderer_vulkan/vk_shader_cache.cpp:36 | two word sequences written to disk give the same bytes only when they are equal |
| `ShaderCacheFiles.LoadedWordCount` | src/video_core/renderer_vulkan/vk_shader_cache.cpp:27 | an opened file loads as floor(size / 4) words |
| `ShaderUtil.ToEshShaderStage` | src/video_core/renderer_vulkan/vk_shader_util.cpp:125-141 | defined on the six supported flags only; the stage can be recovered from the language |
| `ShaderUtil.ToEshShaderStageSurjective` | src/video_core/renderer_vulkan/vk_shader_util.cpp:125-138 | each of the six languages is produced by some supported stage |
| `ShaderUtil.ToEshShaderStageInjective` | src/video_core/renderer_vulkan/vk_shader_util.cpp:125-138 | two supported stages map to the same language exactly when they are equal |
| `ShaderUtil.InitializeCompilerStep` | src/video_core/renderer_vulkan/vk_shader_util.cpp:145-161 | the result equals the new flag; it is true exactly when the flag was up or InitializeProcess succeeds; InitializeProcess is called exactly when the flag was down |
| `ShaderUtil.InitializeCompilerOnce` | src/video_core/renderer_vulkan/vk_shader_util.cpp:145-161 | once a call has returned true, the next returns true without calling InitializeProcess |
| `ShaderUtil.InitializeCompilerRetries` | src/video_core/renderer_vulkan/vk_shader_util.cpp:152-155 | when InitializeProcess fails the call returns false and the flag stays down, so the next call calls InitializeProcess again and succeeds exactly when it does |
| `ShaderUtil.CompileStep` | src/video_core/renderer_vulkan/vk_shader_util.cpp:164-223 | one Compile call: InitializeProcess is called exactly on a miss while the flag is down; a hit leaves the flag alone, and after a miss the flag is up exactly when it was already up or InitializeProcess succeeded, even if parse or link then fail; the only possible write is the save of the lowered words under (code, stage), made only when a module is returned |
| `ShaderUtil.CompileHitSkipsCompiler` | src/video_core/renderer_vulkan/vk_shader_util.cpp:167-170 | on a non-empty load the module is built from exactly the loaded words; no init, compile or save happens and the flag is unchanged |
| `ShaderUtil.CompileFailureLeavesCache` | src/video_core/renderer_vulkan/vk_shader_util.cpp:172-202 | every null result leaves the cache files unchanged |
| `ShaderUtil.CompileMissFailsIff` | src/video_core/renderer_vulkan/vk_shader_util.cpp:172-202 | on a miss, Compile returns null exactly when initialisation, parsing or linking fails |
| `ShaderUtil.CompileSavesModuleWords` | src/video_core/renderer_vulkan/vk_shader_util.cpp:204-222 | on a successful miss, the entry now loads as the lowered words, and the returned module is built from those same words |
| `ShaderUtil.SecondCompileHitsCache` | src/video_core/renderer_vulkan/vk_shader_util.cpp:164-222 | after a successful Compile whose entry holds words, a second Compile of the same source and stage builds its module from the same words the first one's was built from, with no toolchain call, no initialisation and no write, whatever the toolchain would do |
| `ShaderUtil.CompileRepairsTruncatedEntry` | src/video_core/renderer_vulkan/vk_shader_util.cpp:164-222 | an entry shorter than one word is a miss, and a successful Compile rewrites it to the freshly lowered words |
| `ShaderUtil.CompileServesTruncatedEntry` | src/video_core/renderer_vulkan/vk_shader_util.cpp:168-169 | an entry cut after at least one whole word is served as a hit: the module is built from the surviving words and the file is left damaged |
| `ShaderUtil.CompileInitFailureRetries` | src/video_core/renderer_vulkan/vk_shader_util.cpp:152-155 | a miss whose InitializeProcess fails returns nullptr, saves nothing and leaves the flag down, so the next miss calls InitializeProcess again and the flag follows its answer |
| `ShaderUtil.CompileInitializesOnce` | src/video_core/renderer_vulkan/vk_shader_util.cpp:148-159 | once a Compile has left the flag up, no later Compile of any source or stage calls InitializeProcess, so the toolchain is started at most once per process |
| `ShaderUtil.CompilerContext.constructor` | src/video_core/renderer_vulkan/vk_shader_util.cpp:165 | the static cache uses "user/shader_cache" and glslang starts uninitialised |
| `ShaderUtil.CompilerContext.InitializeCompiler` | src/video_core/renderer_vulkan/vk_shader_util.cpp:145-161 | the flag and result follow InitializeCompilerStep, and InitializeProcess is counted once per call made while the flag was down |
| `ShaderUtil.CompilerContext.Compile` | src/video_core/renderer_vulkan/vk_shader_util.cpp:164-223 | the returned module, the files, the flag and the InitializeProcess count are those of CompileStep; the stage needs to be supported only where the C++ code reaches ToEshShaderStage |
| `PipelineCacheState.Program.constructor` | src/video_core/renderer_vulkan/vk_pipeline_cache.h:42-43 | a new Program has info (stage, l_stage, params) and no permutations |
| `PipelineCacheState.Program.AddPermut` | src/video_core/renderer_vulkan/vk_pipeline_cache.h:45-47 | exactly one (module, spec) pair is appended at the end; earlier permutations and the info are unchanged |
| `PipelineCacheState.AddPermutKeepsDistinct` | src/video_core/renderer_vulkan/vk_pipeline_cache.h:45-47 | after appending, no two permutations share a specialization exactly when none did before and the new specialization was absent |
| `PipelineCacheState.AppendsKeepIndices` | src/video_core/renderer_vulkan/vk_pipeline_cache.h:45-47 | later appends never move or replace an existing permutation |
| `PipelineCacheState.SpirvCacheKeyHash` | src/video_core/renderer_vulkan/vk_pipeline_cache.h:103-107 | the bucket hash combines the two component hashes so that either one is recovered from it and the other (XOR) |
| `PipelineCacheState.SpirvCacheKeyHashSymmetric` | src/video_core/renderer_vulkan/vk_pipeline_cache.h:103-107 | (a, b) and (b, a) get the same bucket hash |
| `PipelineCacheState.SpirvCacheKeyHashDiagonal` | src/video_core/renderer_vulkan/vk_pipeline_cache.h:103-107 | every key (a, a) hashes to 0 |
| `PipelineCacheState.SpirvCacheKeyHashCollision` | src/video_core/renderer_vulkan/vk_pipeline_cache.h:103-107 | two keys share a bucket hash exactly when the XOR of their first components' hashes equals the XOR of their second components' hashes |
| `PipelineCacheState.SpirvEntriesIndependent` | src/video_core/renderer_vulkan/vk_pipeline_cache.h:108 | storing under one (hash, index) key changes neither the presence nor the value of any other key, whatever its bucket hash |
| `PipelineCacheState.SwappedKeysShareBucketNotEntry` | src/video_core/renderer_vulkan/vk_pipeline_cache.h:102-108 | (a, b) and (b, a) get the same bucket hash, yet storing under one leaves the other's presence and value unchanged |
| `PipelineCacheState.PipelineCache.constructor` | src/video_core/renderer_vulkan/vk_pipeline_cache.h:108-137 | the SPIR-V cache starts empty and clean, both counters start at 0, all tables start empty, every Program is held by one hash only, and the reverse index names only pipelines in the tables |

## Left out

- glslang internals (`TShader::parse`, `TProgram::link`, `GlslangToSpv`, info logs, the SPIR-V logger messages): foreign library calls. They are oracle functions of (source, language).
- The emulator's own logging: the `LOG_CRITICAL` of `InitializeCompiler` (vk_shader_util.cpp:153) and the `LOG_ERROR` and `LOG_INFO` calls of `Compile` (vk_shader_util.cpp:174, 193, 200, 216). They are output only and change no modelled state.
- The `DefaultTBuiltInResource` table (vk_shader_util.cpp:17-123): constant configuration that only the parse oracle sees.
- `CompileSPV` and `device.createShaderModule`: driver calls. Module creation is a total oracle from words to handle. An exception thrown by vulkan-hpp is not modelled.
- ShaderUtil.SecondCompileHitsCache: modules built from equal words are identified, because module creation is a function of the words. The driver returns a new handle on every call, so the lemma promises equal words, not an equal handle.
- Concurrent calls: `Compile`, `InitializeCompiler` and the caches are modelled as called one after another. `glslang_initialized` (vk_shader_util.cpp:146) and the function-local cache are not synchronised, so two threads that both miss while the flag is down would each call `InitializeProcess`. `CompileInitializesOnce` holds only for sequential calls.
- The `std::atexit` finalizer and the process-lifetime statics: the cache and the flag are fields of `CompilerContext`, and `FinalizeProcess` is not modelled.
- Concrete `std::hash` values: they are implementation-defined. The string hash and the `u64` hash are parameters.
- One string hash `h` serves every call, including calls in a later run of the emulator. The C++ standard promises equal `std::hash` results only within one execution. Hits on files written by an earlier run therefore rest on the standard library hashing alike across runs, which the model assumes rather than proves.
- File I/O failures beyond "cannot be opened": a short read, and a failed or partial write in `SaveShader`, are not modelled. `create_directories` has no effect on the file map.
- ShaderCacheFiles.ShaderCache.constructor: the `std::filesystem::filesystem_error` that `create_directories` (vk_shader_cache.cpp:9) throws when it fails is not modelled. That exception would escape the first `Compile` through the initialisation of its static cache (vk_shader_util.cpp:165).
- ShaderCacheFiles.ShaderCache.SaveShader: does not model a failed open or write, which would leave the old file or a partial one. Every save succeeds.
- `std::hash<vk::ShaderModule>` (vk_pipeline_cache.h:15-20): a pointer-reinterpretation hash of a driver handle. Module handles are compared by equality.
- The `PipelineCache` members defined in vk_pipeline_cache.cpp, which this model does not cover: `GetGraphicsPipeline`, `GetComputePipeline`, `RefreshGraphicsKey`, `RefreshComputeKey`, `GetProgram`, `ReplaceShader`, `CompileModule`, `BuildRuntimeInfo`, `SavePipelineCache`, `LoadPipelineCache`, `SaveSpirvCache`, `LoadSpirvCache`, `DumpShader`, `GetShaderPatch`, `GetShaderName` and the path getters. The invariants they would have to keep appear only as predicates: distinct specializations (`DistinctSpecs`, with `AddPermutKeepsDistinct`) and the reverse index naming only pipelines in the tables (`ReverseIndexConsistent`, established by the constructor).
- `GetProfile` (vk_pipeline_cache.h:71-73) and the `profile` field it returns: the recompiler profile is not modelled.
- PipelineCacheState.PipelineCache.constructor: only the member initialisers are modelled. The constructor body is in vk_pipeline_cache.cpp, which this model does not cover. The driver objects (instance, scheduler, descriptor heap, pipeline layout, driver pipeline cache) and the per-stage scratch arrays are not modelled either.
- The rest of `Shader::Info` beyond (stage, l_stage, params), and the contents of `StageSpecialization` and of the pipeline keys: these are declared elsewhere and are opaque types here.
- vk_shader_hle.h: declarations only, with no body to model.
- Counter overflow: the counters are `u64`, but nothing in the modelled code increments them.
