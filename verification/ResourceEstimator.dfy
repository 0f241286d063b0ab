/** internal/optimizer/resource_estimator.go: per-GPU thread occupancy and memory. */
module ResourceEstimator {
  import opened RealMath
  import opened Wrappers

  datatype ResourceRequirements = ResourceRequirements(threadOccupancy: real, memoryGB: real)

  datatype ResourceEstimator = ResourceEstimator(
    effectiveBatchSize: real,
    maxNumBatchedTokens: Option<nat>,
    modelSize: real,
    memoryPerToken: real,
    activeMemoryPerPrefillToken: real,
    memoryOverheadFactor: real,
    minThreads: nat,
    maxThreads: nat,
    hiddenSize: nat,
    precision: nat,
    /** (promptLen / 8192) to the power 1.3, used for prompts longer than 8192 tokens */
    longContextFactor: real,
    underprovisionContentionImpact: real,
    overprovisionSpeedUp: real)
  {
    predicate NonNegative() {
      && effectiveBatchSize >= 0.0 && modelSize >= 0.0 && memoryPerToken >= 0.0
      && activeMemoryPerPrefillToken >= 0.0 && memoryOverheadFactor >= 0.0 && maxThreads >= 1
      && longContextFactor >= 0.0
      && underprovisionContentionImpact >= 0.0 && overprovisionSpeedUp >= 0.0
    }

    function PrefillTokens(promptLen: nat, cachedHitRatio: real): real {
      var tokens := promptLen as real * (1.0 - cachedHitRatio) * effectiveBatchSize;
      if maxNumBatchedTokens.Some? then Min(tokens, maxNumBatchedTokens.value as real) else tokens
    }

    function RequirementsPerGPU(promptLen: nat, outputLen: nat, cachedHitRatio: real, numGPU: nat): ResourceRequirements
      requires numGPU >= 1 && maxThreads >= 1
    {
      var prefillTokens := PrefillTokens(promptLen, cachedHitRatio);
      ResourceRequirements(ThreadOccupancy(prefillTokens, numGPU),
                           MemoryUsage(promptLen, outputLen, prefillTokens, numGPU))
    }

    function ThreadOccupancy(prefillTokens: real, numGPU: nat): real
      requires numGPU >= 1 && maxThreads >= 1
    {
      CappedShare(ActiveThreads(prefillTokens, effectiveBatchSize, minThreads as real), (maxThreads * numGPU) as real)
    }

    function MemoryUsage(promptLen: nat, outputLen: nat, prefillTokens: real, numGPU: nat): real
      requires numGPU >= 1
    {
      MemoryPerGPU(modelSize, KVCacheBytes(promptLen, outputLen), ActivationBytes(prefillTokens),
                   AttentionMemory(promptLen, prefillTokens), memoryOverheadFactor, numGPU as real)
    }

    function KVCacheBytes(promptLen: nat, outputLen: nat): real {
      var totalTokens := (promptLen + outputLen) as real * effectiveBatchSize;
      effectiveBatchSize * totalTokens * memoryPerToken
    }

    function ActivationBytes(prefillTokens: real): real { activeMemoryPerPrefillToken * prefillTokens }

    function AttentionMemory(seqLen: nat, prefillTokens: real): real {
      if seqLen <= 8192 then 0.0
      else (prefillTokens * hiddenSize as real * precision as real * longContextFactor * 0.1) / 1000000000.0
    }

    lemma PrefillTokensNonNegative(promptLen: nat, cachedHitRatio: real)
      requires effectiveBatchSize >= 0.0 && cachedHitRatio <= 1.0
      ensures PrefillTokens(promptLen, cachedHitRatio) >= 0.0
    {
    }

    /** Spreading a replica over more GPUs never needs more memory on each of them. */
    lemma MemoryShrinksWithGPUs(promptLen: nat, outputLen: nat, cachedHitRatio: real, few: nat, many: nat)
      requires NonNegative() && cachedHitRatio <= 1.0 && 1 <= few <= many
      ensures RequirementsPerGPU(promptLen, outputLen, cachedHitRatio, many).memoryGB
           <= RequirementsPerGPU(promptLen, outputLen, cachedHitRatio, few).memoryGB
    {
      var tokens := PrefillTokens(promptLen, cachedHitRatio);
      PrefillTokensNonNegative(promptLen, cachedHitRatio);
      KVCacheNonNegative(promptLen, outputLen);
      MulMono2(0.0, activeMemoryPerPrefillToken, 0.0, tokens);
      AttentionMemoryNonNegative(promptLen, tokens);
      hide AttentionMemory, PrefillTokens, KVCacheBytes, ActivationBytes, MemoryPerGPU;
      MemoryPerGPUShrinks(modelSize, KVCacheBytes(promptLen, outputLen), ActivationBytes(tokens),
                          AttentionMemory(promptLen, tokens), memoryOverheadFactor, few as real, many as real);
    }

    lemma MemoryNonNegative(promptLen: nat, outputLen: nat, cachedHitRatio: real, gpus: nat)
      requires NonNegative() && cachedHitRatio <= 1.0 && gpus >= 1
      ensures RequirementsPerGPU(promptLen, outputLen, cachedHitRatio, gpus).memoryGB >= 0.0
    {
      var tokens := PrefillTokens(promptLen, cachedHitRatio);
      PrefillTokensNonNegative(promptLen, cachedHitRatio);
      KVCacheNonNegative(promptLen, outputLen);
      MulMono2(0.0, activeMemoryPerPrefillToken, 0.0, tokens);
      AttentionMemoryNonNegative(promptLen, tokens);
      var kvCache, activations, attention :=
        KVCacheBytes(promptLen, outputLen), ActivationBytes(tokens), AttentionMemory(promptLen, tokens);
      var n := gpus as real;
      hide AttentionMemory, PrefillTokens, KVCacheBytes, ActivationBytes, WithOverhead;
      DivMono(0.0, modelSize, n);
      DivMono(0.0, kvCache, n);
      DivMono(0.0, activations, n);
      DivMono(0.0, attention, n);
      WithOverheadGrows(0.0, modelSize / n, 0.0, kvCache / n, 0.0, activations / n, 0.0, attention / n,
                        memoryOverheadFactor);
      NoMemory(memoryOverheadFactor);
    }

    lemma KVCacheNonNegative(promptLen: nat, outputLen: nat)
      requires effectiveBatchSize >= 0.0 && memoryPerToken >= 0.0
      ensures KVCacheBytes(promptLen, outputLen) >= 0.0
    {
    }

    lemma AttentionMemoryNonNegative(seqLen: nat, prefillTokens: real)
      requires prefillTokens >= 0.0 && longContextFactor >= 0.0
      ensures AttentionMemory(seqLen, prefillTokens) >= 0.0
    {
    }

    /**
     What all GPUs of a replica hold together, in gigabytes: weights, a cache entry for every prompt and output
     token of every sequence of the batch, activations of the prefilled tokens and, past 8192 prompt tokens, attention.
     */
    function ReplicaGigabytes(promptLen: nat, outputLen: nat, prefilled: real): real {
      memoryOverheadFactor
        * (modelSize
           + effectiveBatchSize * effectiveBatchSize * (promptLen + outputLen) as real * memoryPerToken / 1000000000.0
           + activeMemoryPerPrefillToken * prefilled / 1000000000.0
           + if promptLen <= 8192 then 0.0
             else prefilled * hiddenSize as real * precision as real * longContextFactor / 10000000000.0)
    }

    /** The memory per GPU adds up to exactly that. */
    lemma MemoryLaw(promptLen: nat, outputLen: nat, cachedHitRatio: real, gpus: nat)
      requires gpus >= 1 && maxThreads >= 1
      ensures RequirementsPerGPU(promptLen, outputLen, cachedHitRatio, gpus).memoryGB * gpus as real
           == ReplicaGigabytes(promptLen, outputLen, PrefillTokens(promptLen, cachedHitRatio))
    {
      var tokens := PrefillTokens(promptLen, cachedHitRatio);
      var kvCache, attention := KVCacheBytes(promptLen, outputLen), AttentionMemory(promptLen, tokens);
      CacheOfTokens(effectiveBatchSize, (promptLen + outputLen) as real, memoryPerToken);
      SpreadOverGPUs(modelSize, kvCache, ActivationBytes(tokens), attention, memoryOverheadFactor, gpus as real);
      hide MemoryPerGPU, PrefillTokens;
    }

    /** One more output token costs each GPU its share of a cache entry for every sequence of the batch, squared. */
    lemma OutputTokenCost(promptLen: nat, outputLen: nat, cachedHitRatio: real, gpus: nat)
      requires gpus >= 1 && maxThreads >= 1
      ensures (RequirementsPerGPU(promptLen, outputLen + 1, cachedHitRatio, gpus).memoryGB
               - RequirementsPerGPU(promptLen, outputLen, cachedHitRatio, gpus).memoryGB) * gpus as real
           == memoryOverheadFactor * (effectiveBatchSize * effectiveBatchSize * memoryPerToken / 1000000000.0)
    {
      MemoryLaw(promptLen, outputLen, cachedHitRatio, gpus);
      MemoryLaw(promptLen, outputLen + 1, cachedHitRatio, gpus);
      hide RequirementsPerGPU, PrefillTokens;
    }

    /** Prefilled are the uncached prompt tokens of the batch, as far as the limit on batched tokens allows. */
    lemma PrefillLaw(promptLen: nat, cachedHitRatio: real)
      ensures var tokens, all := PrefillTokens(promptLen, cachedHitRatio),
                                 effectiveBatchSize * promptLen as real * (1.0 - cachedHitRatio);
              && tokens <= all && (maxNumBatchedTokens.Some? ==> tokens <= maxNumBatchedTokens.value as real)
              && (tokens == all || (maxNumBatchedTokens.Some? && tokens == maxNumBatchedTokens.value as real))
    {
    }

    /** A token or a sequence, whichever are more, takes minThreads of the replica's threads, up to all of them. */
    lemma OccupancyLaw(promptLen: nat, outputLen: nat, cachedHitRatio: real, gpus: nat, active: real)
      requires gpus >= 1 && maxThreads >= 1
      requires var tokens := PrefillTokens(promptLen, cachedHitRatio);
               active == (if tokens >= effectiveBatchSize then tokens else effectiveBatchSize) * minThreads as real
      ensures var occupancy := RequirementsPerGPU(promptLen, outputLen, cachedHitRatio, gpus).threadOccupancy;
              if active <= (maxThreads * gpus) as real
              then occupancy * (maxThreads * gpus) as real == 100.0 * active
              else occupancy == 100.0
    {
      var tokens := PrefillTokens(promptLen, cachedHitRatio);
      LargerActive(tokens, effectiveBatchSize, minThreads as real);
      assert active == ActiveThreads(tokens, effectiveBatchSize, minThreads as real);
      ProductMono(1, maxThreads, 1, gpus);
      ShareOfThreads(active, (maxThreads * gpus) as real);
      hide PrefillTokens, ActiveThreads, CappedShare, MemoryUsage;
    }

    lemma OccupancyNonNegative(prefillTokens: real, numGPU: nat)
      requires NonNegative() && numGPU >= 1
      ensures ThreadOccupancy(prefillTokens, numGPU) >= 0.0
    {
    }
  }

  /** Model weights, KV cache, activations and attention, divided over the GPUs of a replica. */
  function MemoryPerGPU(weights: real, kvCache: real, activations: real, attention: real,
                        overheadFactor: real, gpus: real): real
    requires gpus > 0.0
  {
    WithOverhead(weights / gpus, kvCache / gpus, activations / gpus, attention / gpus, overheadFactor)
  }

  /** Weights and attention come in gigabytes, the KV cache and the activations in bytes. */
  function WithOverhead(weights: real, kvCache: real, activations: real, attention: real, factor: real): real {
    (weights + kvCache / 1000000000.0 + activations / 1000000000.0 + attention) * factor
  }

  lemma MemoryPerGPUShrinks(w: real, kv: real, act: real, att: real, factor: real, x: real, y: real)
    requires w >= 0.0 && kv >= 0.0 && act >= 0.0 && att >= 0.0 && factor >= 0.0 && 0.0 < x <= y
    ensures MemoryPerGPU(w, kv, act, att, factor, y) <= MemoryPerGPU(w, kv, act, att, factor, x)
  {
    hide WithOverhead;
    DivAnti(w, x, y);
    DivAnti(kv, x, y);
    DivAnti(act, x, y);
    DivAnti(att, x, y);
    WithOverheadGrows(w / y, w / x, kv / y, kv / x, act / y, act / x, att / y, att / x, factor);
  }

  lemma CacheOfTokens(batch: real, tokens: real, perToken: real)
    ensures batch * (tokens * batch) * perToken == batch * batch * tokens * perToken
  {
  }

  lemma SpreadOverGPUs(w: real, kv: real, act: real, att: real, factor: real, gpus: real)
    requires gpus > 0.0
    ensures MemoryPerGPU(w, kv, act, att, factor, gpus) * gpus
         == factor * (w + kv / 1000000000.0 + act / 1000000000.0 + att)
  {
    var x, y, z, u := w / gpus, kv / gpus, act / gpus, att / gpus;
    assert x * gpus == w && y * gpus == kv && z * gpus == act && u * gpus == att;
    var sum := x + y / 1000000000.0 + z / 1000000000.0 + u;
    assert sum * gpus == w + kv / 1000000000.0 + act / 1000000000.0 + att;
    Regroup(factor, sum, gpus);
  }

  /** Prefill and decode share the threads in turn, so the larger demand counts. */
  function ActiveThreads(tokens: real, sequences: real, each: real): real { Max(tokens * each, sequences * each) }

  lemma LargerActive(tokens: real, sequences: real, each: real)
    requires each >= 0.0
    ensures ActiveThreads(tokens, sequences, each) == (if tokens >= sequences then tokens else sequences) * each
  {
    if tokens >= sequences {
      MulMono(sequences, tokens, each);
    } else {
      MulMono(tokens, sequences, each);
    }
  }

  /** A percentage, capped at the physical thread slots. */
  function CappedShare(active: real, threads: real): real
    requires threads > 0.0
  {
    var occupancy := (active / threads) * 100.0;
    if occupancy > 100.0 then 100.0 else occupancy
  }

  lemma ShareOfThreads(active: real, threads: real)
    requires threads > 0.0
    ensures if active <= threads then CappedShare(active, threads) * threads == 100.0 * active
            else CappedShare(active, threads) == 100.0
  {
    var share := active / threads;
    assert share * threads == active;
    assert (share * 100.0) * threads == 100.0 * active;
  }

  lemma NoMemory(factor: real)
    ensures WithOverhead(0.0, 0.0, 0.0, 0.0, factor) == 0.0
  {
  }

  lemma WithOverheadGrows(w: real, w': real, kv: real, kv': real, act: real, act': real, att: real, att': real,
                          factor: real)
    requires w <= w' && kv <= kv' && act <= act' && att <= att' && factor >= 0.0
    ensures WithOverhead(w, kv, act, att, factor) <= WithOverhead(w', kv', act', att', factor)
  {
  }
}
