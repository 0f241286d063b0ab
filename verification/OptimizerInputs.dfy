/**
 Building the optimizer's problem from what a user and the metrics supply: the architecture parameters
 and hint of the autoscaler spec, a GPU of the registry, the constraints and the measured traffic.
 */
module OptimizerInputs {
  import opened Wrappers
  import opened RealMath
  import opened LatencyEstimator
  import opened ResourceEstimator
  import opened ResourceOptimizer
  import opened SpecConstraints

  datatype ArchParams = ArchParams(
    parametersB: real, layers: nat, kvHeads: nat, hiddenSize: nat, queryHeads: nat, precision: nat)
  {
    /** The CRD's validation bounds. */
    predicate Validated() {
      && parametersB >= 0.1 && layers >= 1 && kvHeads >= 1 && hiddenSize >= 128 && queryHeads >= 1
      && 1 <= precision <= 4
    }
  }

  datatype GPUSpecs = GPUSpecs(
    memoryBW: real, peakTFLOPS: real, maxThreads: nat, underprovisionContentionImpact: real, overprovisionSpeedUp: real)

  const H200 := GPUSpecs(4.8, 989.0, 249856, 0.08, 0.5)
  const H100 := GPUSpecs(3.35, 989.0, 184320, 0.15, 0.35)
  const A100 := GPUSpecs(2.0, 312.0, 108544, 0.3, 0.2)
  const L4 := GPUSpecs(0.3, 121.0, 30720, 0.7, 0.05)

  const LLAMA_3_8B := ArchParams(8.0, 32, 8, 4096, 32, 2)

  datatype Hint = Hint(
    batchSize: nat, maxNumSeqs: nat, maxNumBatchedTokens: Option<nat>, prefixCacheHitRate: real, kvCacheSpeedup: real)
  {
    /** The CRD's validation bounds, and the range it documents for the hit rate. */
    predicate Validated() {
      && batchSize >= 1 && maxNumSeqs >= 1
      && (maxNumBatchedTokens.Some? ==> maxNumBatchedTokens.value >= 1)
      && 0.0 <= prefixCacheHitRate <= 1.0 && kvCacheSpeedup >= 0.0
    }

    function EffectiveBatch(): real { Min(batchSize as real, maxNumSeqs as real) }
  }

  /** Averages from the metrics; the last field stands for (promptTokens / 8192) to the power 1.3. */
  datatype Traffic = Traffic(arrivalRate: real, promptTokens: nat, outputTokens: nat, longContextFactor: real)

  datatype Inputs = Inputs(
    params: ArchParams, gpu: GPUSpecs, hint: Hint, spec: Option<Constraints>, traffic: Traffic)
  {
    /** Everything validated, and steps with which the two step computations end. */
    predicate Validated() {
      && params.Validated() && gpu in {H200, H100, A100, L4} && hint.Validated()
      && (spec.Some? ==> spec.value.Validated())
      && ExtractGPUConstraints(spec).stepThreadPercentage > 0.0 && ExtractGPUConstraints(spec).stepMemoryBytes > 0
      && traffic.arrivalRate >= 0.0 && traffic.longContextFactor >= 0.0
    }

    function HeadDim(): nat
      requires params.queryHeads >= 1
    {
      params.hiddenSize / params.queryHeads
    }

    /** resource_estimator.go:396-418: the byte counts per token. */
    function Estimator(): ResourceEstimator
      requires params.queryHeads >= 1
    {
      var batch := hint.EffectiveBatch();
      ResourceEstimator(
        batch, hint.maxNumBatchedTokens, params.parametersB * params.precision as real,
        Product4(2 * params.layers, params.kvHeads, HeadDim(), params.precision) as real,
        batch * (params.hiddenSize * params.precision) as real
          + batch * (params.hiddenSize * 4 * params.precision) as real,
        1.2, params.hiddenSize, gpu.maxThreads, params.hiddenSize, params.precision, traffic.longContextFactor,
        gpu.underprovisionContentionImpact, gpu.overprovisionSpeedUp)
    }

    /** latency_estimator.go:42-78 and 141-166: times in milliseconds. */
    function Latency(): LatencyEstimator
      requires params.queryHeads >= 1 && gpu.memoryBW > 0.0 && gpu.peakTFLOPS > 0.0
    {
      var bytesPerMillisecond := gpu.memoryBW * 1000000000000.0 / 1000.0;
      var kvHeads := if params.kvHeads == 0 then params.queryHeads else params.kvHeads;
      var kvBytes := 2.0 * Product4(params.layers, kvHeads, HeadDim(), params.precision) as real;
      LatencyEstimator(
        hint.prefixCacheHitRate, hint.kvCacheSpeedup, 0.0, 0.0, hint.EffectiveBatch(),
        params.layers as real * 0.1 + (params.layers * params.kvHeads) as real * 0.05,
        2.0 * params.parametersB * 1000000000.0 / (gpu.peakTFLOPS * 1000000000000.0) * 1000.0,
        kvBytes * hint.EffectiveBatch() / bytesPerMillisecond,
        params.parametersB * 1000000000.0 * params.precision as real / bytesPerMillisecond)
    }

    /** NewResourceOptimizer and SetWorkloadParameters. */
    function Build(): Problem
      requires params.queryHeads >= 1 && gpu.memoryBW > 0.0 && gpu.peakTFLOPS > 0.0
    {
      Problem(Estimator(), Latency(), GetMaxReplicas(spec), hint.prefixCacheHitRate, ExtractGPUConstraints(spec),
              traffic.arrivalRate, traffic.promptTokens, traffic.outputTokens)
    }

    /** Validated inputs always build a problem all results about the search apply to. */
    lemma BuildIsValid()
      requires Validated()
      ensures gpu.memoryBW > 0.0 && gpu.peakTFLOPS > 0.0
      ensures Build().Valid() && BuiltFrom(Build(), spec)
    {
      EstimatorNonNegative();
      LatencyNonNegative();
      hide Estimator, Latency, ExtractGPUConstraints, ResourceEstimator.NonNegative, LatencyEstimator.NonNegative;
    }

    lemma EstimatorNonNegative()
      requires Validated()
      ensures Estimator().NonNegative()
    {
      var batch := hint.EffectiveBatch();
      var small, large := params.hiddenSize * params.precision, params.hiddenSize * 4 * params.precision;
      hide ExtractGPUConstraints;
      MulMono2(0.0, params.parametersB, 0.0, params.precision as real);
      MulMono2(0.0, batch, 0.0, small as real);
      MulMono2(0.0, batch, 0.0, large as real);
    }

    lemma LatencyNonNegative()
      requires Validated()
      ensures gpu.memoryBW > 0.0 && gpu.peakTFLOPS > 0.0 && Latency().NonNegative()
    {
      hide ExtractGPUConstraints, Product4;
      var bytesPerMillisecond := gpu.memoryBW * 1000000000000.0 / 1000.0;
      var kvBytes := 2.0 * Product4(params.layers, params.kvHeads, HeadDim(), params.precision) as real;
      var modelBytes := params.parametersB * 1000000000.0;
      MulMono2(0.0, kvBytes, 0.0, hint.EffectiveBatch());
      DivMono(0.0, kvBytes * hint.EffectiveBatch(), bytesPerMillisecond);
      MulMono2(0.0, modelBytes, 0.0, params.precision as real);
      DivMono(0.0, modelBytes * params.precision as real, bytesPerMillisecond);
      DivMono(0.0, 2.0 * modelBytes, gpu.peakTFLOPS * 1000000000000.0);
      hide HeadDim;
    }
  }

  function Product4(a: nat, b: nat, c: nat, d: nat): nat { a * b * c * d }
}
