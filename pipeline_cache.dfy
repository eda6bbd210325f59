/** The in-memory cache state of the Vulkan pipeline cache: Programs with
    their compiled permutations, the secondary SPIR-V cache keyed by
    (program hash, permutation index), the hit counters, the program and
    pipeline tables and the module-to-pipelines index.

    The shader recompiler's types (Shader::Stage, LogicalStage,
    ShaderParams, StageSpecialization) and the pipeline keys and objects
    are declared elsewhere; here they are opaque types with equality. */
module PipelineCacheState {
  import opened Common

  /** size_t on the 64-bit hosts the emulator targets: 64 bits wide, like u64. */
  type size_t = u64

  type Stage(==)
  type LogicalStage(==)
  type ShaderParams(==)
  type StageSpecialization(==)
  type GraphicsPipelineKey(==)
  type ComputePipelineKey(==)
  type GraphicsPipeline
  type ComputePipeline

  /** The part of Shader::Info a Program is built from. */
  datatype Info = Info(stage: Stage, lStage: LogicalStage, params: ShaderParams)

  /** Program::Module: a compiled permutation and the specialization it was built for. */
  datatype Module = Module(shaderModule: ShaderModule, spec: StageSpecialization)

  /** std::variant<GraphicsPipelineKey, ComputePipelineKey>. */
  datatype PipelineKey = GraphicsKey(graphics: GraphicsPipelineKey) | ComputeKey(compute: ComputePipelineKey)

  // ---------------------------------------------------------------------
  // Program
  // ---------------------------------------------------------------------

  class Program {
    var info: Info
    var modules: seq<Module>

    constructor (stage: Stage, lStage: LogicalStage, params: ShaderParams)
      ensures info == Info(stage, lStage, params)
      ensures modules == []
    {
      info := Info(stage, lStage, params);
      modules := [];
    }

    /** Appends one permutation; the earlier ones keep their places. */
    method AddPermut(shaderModule: ShaderModule, spec: StageSpecialization)
      modifies this`modules
      ensures modules == old(modules) + [Module(shaderModule, spec)]
    {
      modules := modules + [Module(shaderModule, spec)];
    }
  }

  /** No two permutations of a Program were built for the same specialization. */
  predicate DistinctSpecs(ms: seq<Module>) {
    forall i, j :: 0 <= i < j < |ms| ==> ms[i].spec != ms[j].spec
  }

  predicate HasSpec(ms: seq<Module>, spec: StageSpecialization) {
    exists i :: 0 <= i < |ms| && ms[i].spec == spec
  }

  /** Appending keeps the permutations pairwise distinct exactly when the new
      specialization is not already present: AddPermut itself does not
      check, so its caller must look first. */
  lemma AddPermutKeepsDistinct(ms: seq<Module>, m: Module)
    ensures DistinctSpecs(ms + [m]) <==> DistinctSpecs(ms) && !HasSpec(ms, m.spec)
  {
    var ms' := ms + [m];
    if DistinctSpecs(ms') {
      forall i, j | 0 <= i < j < |ms| ensures ms[i].spec != ms[j].spec {
        assert ms[i] == ms'[i] && ms[j] == ms'[j];
      }
      forall i | 0 <= i < |ms| ensures ms[i].spec != m.spec {
        assert ms[i] == ms'[i] && m == ms'[|ms|];
      }
    }
  }

  /** After any sequence of appends, every permutation that was present is
      still present at the same index. */
  lemma AppendsKeepIndices(ms: seq<Module>, added: seq<Module>, i: nat)
    requires i < |ms|
    ensures (ms + added)[i] == ms[i]
  {
  }

  // ---------------------------------------------------------------------
  // Secondary SPIR-V cache key
  // ---------------------------------------------------------------------

  /** (program hash, permutation index). */
  type SpirvCacheKey = (u64, size_t)

  /** std::hash<u64>; std::hash<size_t> hashes alike on every supported
      64-bit host, so one function stands for both. */
  type U64Hash = u64 -> bv64

  /** SpirvCacheKeyHash: the XOR of the component hashes. Either component's
      hash is recovered from the bucket hash and the other component's. */
  function SpirvCacheKeyHash(hash: U64Hash, key: SpirvCacheKey): (r: bv64)
    ensures r ^ hash(key.1) == hash(key.0)
    ensures r ^ hash(key.0) == hash(key.1)
  {
    hash(key.0) ^ hash(key.1)
  }

  /** Swapping the program hash and the permutation index gives the same bucket hash. */
  lemma SpirvCacheKeyHashSymmetric(hash: U64Hash, a: u64, b: u64)
    ensures SpirvCacheKeyHash(hash, (a, b)) == SpirvCacheKeyHash(hash, (b, a))
  {
  }

  /** Every key whose two components are equal hashes to 0. */
  lemma SpirvCacheKeyHashDiagonal(hash: U64Hash, a: u64)
    ensures SpirvCacheKeyHash(hash, (a, a)) == 0
  {
  }

  /** Two keys share a bucket hash exactly when the XOR of their program
      hashes' hashes equals the XOR of their indices' hashes. */
  lemma SpirvCacheKeyHashCollision(hash: U64Hash, k1: SpirvCacheKey, k2: SpirvCacheKey)
    ensures SpirvCacheKeyHash(hash, k1) == SpirvCacheKeyHash(hash, k2)
        <==> hash(k1.0) ^ hash(k2.0) == hash(k1.1) ^ hash(k2.1)
  {
  }

  /** Lookups compare whole keys, so an entry stored under one key never
      shows through under another. */
  lemma SpirvEntriesIndependent(cache: map<SpirvCacheKey, seq<u32>>, k: SpirvCacheKey,
                                other: SpirvCacheKey, spirv: seq<u32>)
    requires other != k
    ensures other in cache[k := spirv] <==> other in cache
    ensures other in cache ==> cache[k := spirv][other] == cache[other]
  {
  }

  /** (a, b) and (b, a) land in the same bucket, yet storing SPIR-V under
      one leaves what the other holds unchanged: the bucket hash only
      spreads keys, and the pair equality decides lookups. */
  lemma SwappedKeysShareBucketNotEntry(hash: U64Hash, cache: map<SpirvCacheKey, seq<u32>>,
                                       a: u64, b: u64, spirv: seq<u32>)
    requires a != b
    ensures SpirvCacheKeyHash(hash, (a, b)) == SpirvCacheKeyHash(hash, (b, a))
    ensures (b, a) in cache[(a, b) := spirv] <==> (b, a) in cache
    ensures (b, a) in cache ==> cache[(a, b) := spirv][(b, a)] == cache[(b, a)]
  {
    SpirvCacheKeyHashSymmetric(hash, a, b);
    SpirvEntriesIndependent(cache, (a, b), (b, a), spirv);
  }

  // ---------------------------------------------------------------------
  // PipelineCache state
  // ---------------------------------------------------------------------

  /** The state of Vulkan::PipelineCache that the cache layer owns. The
      driver objects (instance, scheduler, descriptor heap, pipeline layout,
      driver pipeline cache) and the per-draw scratch arrays are not part of
      this model. */
  class PipelineCache {
    var spirvCache: map<SpirvCacheKey, seq<u32>>
    var spirvCacheDirty: bool
    var cacheHits: u64
    var totalRequests: u64
    var programCache: map<size_t, Program>
    var computePipelines: map<ComputePipelineKey, ComputePipeline>
    var graphicsPipelines: map<GraphicsPipelineKey, GraphicsPipeline>
    var moduleRelatedPipelines: map<ShaderModule, seq<PipelineKey>>

    /** Each Program is held by one unique_ptr: no two hashes share one. */
    ghost predicate ProgramsUniquelyOwned()
      reads this
    {
      forall a, b :: a in programCache && b in programCache && a != b
        ==> programCache[a] != programCache[b]
    }

    predicate PipelineKeyPresent(key: PipelineKey)
      reads this
    {
      match key
      case GraphicsKey(g) => g in graphicsPipelines
      case ComputeKey(c) => c in computePipelines
    }

    /** The reverse index names only pipelines that are in the tables. */
    ghost predicate ReverseIndexConsistent()
      reads this
    {
      forall m, i :: m in moduleRelatedPipelines && 0 <= i < |moduleRelatedPipelines[m]|
        ==> PipelineKeyPresent(moduleRelatedPipelines[m][i])
    }

    /** The member initialisers: a clean SPIR-V cache, zero counters and
        empty tables. */
    constructor ()
      ensures spirvCache == map[] && !spirvCacheDirty
      ensures cacheHits == 0 && totalRequests == 0
      ensures programCache == map[] && computePipelines == map[] && graphicsPipelines == map[]
      ensures moduleRelatedPipelines == map[]
      ensures ProgramsUniquelyOwned() && ReverseIndexConsistent()
    {
      spirvCache := map[];
      spirvCacheDirty := false;
      cacheHits := 0;
      totalRequests := 0;
      programCache := map[];
      computePipelines := map[];
      graphicsPipelines := map[];
      moduleRelatedPipelines := map[];
    }
  }
}
