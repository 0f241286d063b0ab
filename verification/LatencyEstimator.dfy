/** internal/optimizer/latency_estimator.go: prefill and inter-token latency of one replica. */
module LatencyEstimator {
  import opened RealMath
  import opened QueueAnalyzer

  datatype LatencyEstimator = LatencyEstimator(
    prefixCacheHitRate: real,
    kvCacheSpeedup: real,
    itlOffset: real,
    ttftOffset: real,
    effectiveBatch: real,
    kernelOverhead: real,
    prefillLatencyPerPromptLen: real,
    kvReadTimePerPromptToken: real,
    totalWeightReadTime: real)
  {
    /** What NewLatencyEstimatorWithHint establishes; the tuning offsets may have any sign. */
    predicate NonNegative() {
      && effectiveBatch >= 0.0 && kernelOverhead >= 0.0 && prefillLatencyPerPromptLen >= 0.0
      && kvReadTimePerPromptToken >= 0.0 && totalWeightReadTime >= 0.0
    }

    function EstimateLatency(promptLen: nat, outputLen: nat, numGPU: nat, allocationImpact: real): LatencyFigures
      requires numGPU >= 1
    {
      var (prefillByPrompt, kvCacheReduction) := PrefillLatencyByPrompt(promptLen, numGPU, allocationImpact);
      var itl := InterTokenLatency(promptLen, numGPU, allocationImpact);
      LatencyFigures(itl, prefillByPrompt + StructuralOverhead(numGPU), itl * outputLen as real,
                     kvCacheReduction, allocationImpact)
    }

    function BasePrefill(promptLen: nat, numGPU: nat): real
      requires numGPU >= 1
    {
      (prefillLatencyPerPromptLen * (promptLen as real * effectiveBatch)) / numGPU as real
    }

    /** The share of prefill the prefix cache saves; the code drops a share above one. */
    function CacheShare(): real {
      var speedUp := kvCacheSpeedup * prefixCacheHitRate;
      if prefixCacheHitRate > 0.0 && speedUp <= 1.0 then speedUp else 0.0
    }

    /** Prefill work the cache does not save. */
    function Uncached(promptLen: nat, numGPU: nat): real
      requires numGPU >= 1
    {
      var basePrefill := BasePrefill(promptLen, numGPU);
      basePrefill - basePrefill * CacheShare()
    }

    function PrefillLatencyByPrompt(promptLen: nat, numGPU: nat, allocationImpact: real): (real, real)
      requires numGPU >= 1
    {
      (Clamped(Scaled(Uncached(promptLen, numGPU), allocationImpact) + ttftOffset),
       BasePrefill(promptLen, numGPU) * CacheShare())
    }

    function ReadTime(promptLen: nat, numGPU: nat): real
      requires numGPU >= 1
    {
      (totalWeightReadTime + kvReadTimePerPromptToken * promptLen as real) / numGPU as real
    }

    function InterTokenLatency(promptLen: nat, numGPU: nat, allocationImpact: real): real
      requires numGPU >= 1
    {
      Clamped(Scaled(ReadTime(promptLen, numGPU), allocationImpact) + itlOffset)
    }

    function StructuralOverhead(numGPU: nat): real {
      kernelOverhead + (if numGPU > 1 then 2.0 * numGPU as real else 0.0)
    }

    /**
     Without offsets: the GPUs of a replica share the prefill work of all prompts of the batch, less what the prefix
     cache saves, and the weights and cache entries read for every token; both are scaled by the impact. Launching
     costs the kernel overhead and, on several GPUs, two milliseconds for each.
     */
    lemma LatencyLaw(promptLen: nat, outputLen: nat, gpus: nat, impact: real)
      requires NonNegative() && gpus >= 1 && impact >= -1.0 && itlOffset == 0.0 && ttftOffset == 0.0
      ensures var f := EstimateLatency(promptLen, outputLen, gpus, impact);
              var work := prefillLatencyPerPromptLen * (promptLen as real * effectiveBatch);
              var saved := CacheShare();
              var launch := kernelOverhead + if gpus == 1 then 0.0 else 2.0 * gpus as real;
              && (f.prefill - launch) * gpus as real == (work - work * saved) * (1.0 + impact)
              && f.kvCacheReduction * gpus as real == work * saved
              && f.itl * gpus as real
                 == (totalWeightReadTime + kvReadTimePerPromptToken * promptLen as real) * (1.0 + impact)
              && f.decode == f.itl * outputLen as real && f.allocationImpact == impact
      ensures CacheShare() == if prefixCacheHitRate > 0.0 && kvCacheSpeedup * prefixCacheHitRate <= 1.0
                              then kvCacheSpeedup * prefixCacheHitRate else 0.0
    {
      assert CacheShare() == if prefixCacheHitRate > 0.0 && kvCacheSpeedup * prefixCacheHitRate <= 1.0
                             then kvCacheSpeedup * prefixCacheHitRate else 0.0;
      hide CacheShare;
      PrefillWork(promptLen, gpus, impact);
      TokenWork(promptLen, gpus, impact);
      var f := EstimateLatency(promptLen, outputLen, gpus, impact);
      var launch := kernelOverhead + if gpus == 1 then 0.0 else 2.0 * gpus as real;
      assert f.prefill - launch == PrefillLatencyByPrompt(promptLen, gpus, impact).0;
      assert f.kvCacheReduction == PrefillLatencyByPrompt(promptLen, gpus, impact).1;
      assert f.itl == InterTokenLatency(promptLen, gpus, impact);
      assert f.decode == f.itl * outputLen as real;
      hide *;
    }

    lemma PrefillWork(promptLen: nat, gpus: nat, impact: real)
      requires NonNegative() && gpus >= 1 && impact >= -1.0 && ttftOffset == 0.0
      ensures var (prefill, reduction) := PrefillLatencyByPrompt(promptLen, gpus, impact);
              var work := prefillLatencyPerPromptLen * (promptLen as real * effectiveBatch);
              && prefill * gpus as real == (work - work * CacheShare()) * (1.0 + impact)
              && reduction * gpus as real == work * CacheShare()
    {
      var n, work := gpus as real, prefillLatencyPerPromptLen * (promptLen as real * effectiveBatch);
      UncachedNonNegative(promptLen, gpus);
      ScaledNonNegative(Uncached(promptLen, gpus), impact);
      assert BasePrefill(promptLen, gpus) == work / n;
      assert Uncached(promptLen, gpus) == work / n - (work / n) * CacheShare();
      hide Uncached, BasePrefill, CacheShare;
      SharedWork(work, CacheShare(), 1.0 + impact, n);
    }

    lemma TokenWork(promptLen: nat, gpus: nat, impact: real)
      requires NonNegative() && gpus >= 1 && impact >= -1.0 && itlOffset == 0.0
      ensures InterTokenLatency(promptLen, gpus, impact) * gpus as real
           == (totalWeightReadTime + kvReadTimePerPromptToken * promptLen as real) * (1.0 + impact)
    {
      var n, read := gpus as real, totalWeightReadTime + kvReadTimePerPromptToken * promptLen as real;
      ReadTimeNonNegative(promptLen, gpus);
      ScaledNonNegative(ReadTime(promptLen, gpus), impact);
      assert ReadTime(promptLen, gpus) == read / n;
      hide ReadTime;
      SharedWork(read, 0.0, 1.0 + impact, n);
    }

    /** Offsets are added to what the estimate is without them, and nothing drops below zero. */
    lemma OffsetsShift(promptLen: nat, gpus: nat, impact: real)
      requires NonNegative() && gpus >= 1 && impact >= -1.0
      ensures var untuned := this.(itlOffset := 0.0, ttftOffset := 0.0);
              var itl := untuned.InterTokenLatency(promptLen, gpus, impact) + itlOffset;
              var prefill := untuned.PrefillLatencyByPrompt(promptLen, gpus, impact).0 + ttftOffset;
              && InterTokenLatency(promptLen, gpus, impact) == (if itl >= 0.0 then itl else 0.0)
              && PrefillLatencyByPrompt(promptLen, gpus, impact).0 == (if prefill >= 0.0 then prefill else 0.0)
    {
      ReadTimeNonNegative(promptLen, gpus);
      UncachedNonNegative(promptLen, gpus);
      OffsetsApart(promptLen, gpus, this.(itlOffset := 0.0, ttftOffset := 0.0));
      hide ReadTime, Uncached, BasePrefill, CacheShare, Scaled;
      ScaledNonNegative(ReadTime(promptLen, gpus), impact);
      ScaledNonNegative(Uncached(promptLen, gpus), impact);
    }

    /** Latencies are never negative and never shrink when the allocation impact grows. */
    lemma LatencyGrowsWithImpact(promptLen: nat, outputLen: nat, numGPU: nat, impact1: real, impact2: real)
      requires NonNegative() && numGPU >= 1 && impact1 <= impact2
      ensures var low := EstimateLatency(promptLen, outputLen, numGPU, impact1);
              var high := EstimateLatency(promptLen, outputLen, numGPU, impact2);
              && 0.0 <= low.itl <= high.itl
              && 0.0 <= low.prefill <= high.prefill
              && 0.0 <= low.decode <= high.decode
              && 0.0 <= low.ServiceSeconds() <= high.ServiceSeconds()
    {
      PrefillGrows(promptLen, numGPU, impact1, impact2);
      InterTokenGrows(promptLen, numGPU, impact1, impact2);
      var low, high := InterTokenLatency(promptLen, numGPU, impact1), InterTokenLatency(promptLen, numGPU, impact2);
      hide BasePrefill, ReadTime, InterTokenLatency, CacheShare, PrefillLatencyByPrompt;
      MulMono2(low, high, outputLen as real, outputLen as real);
    }

    lemma PrefillGrows(promptLen: nat, numGPU: nat, impact1: real, impact2: real)
      requires NonNegative() && numGPU >= 1 && impact1 <= impact2
      ensures 0.0 <= PrefillLatencyByPrompt(promptLen, numGPU, impact1).0
           <= PrefillLatencyByPrompt(promptLen, numGPU, impact2).0
    {
      UncachedNonNegative(promptLen, numGPU);
      hide Uncached, BasePrefill, CacheShare, Scaled;
      ScaledGrows(Uncached(promptLen, numGPU), impact1, impact2);
    }

    lemma InterTokenGrows(promptLen: nat, numGPU: nat, impact1: real, impact2: real)
      requires NonNegative() && numGPU >= 1 && impact1 <= impact2
      ensures 0.0 <= InterTokenLatency(promptLen, numGPU, impact1) <= InterTokenLatency(promptLen, numGPU, impact2)
    {
      ReadTimeNonNegative(promptLen, numGPU);
      hide ReadTime, Scaled;
      ScaledGrows(ReadTime(promptLen, numGPU), impact1, impact2);
    }

    /**
     The offsets are corrections: the difference between a measured latency and the one estimated without
     offset makes the estimate come out as measured. That difference is the offset of the first round with an
     estimation to compare (scaler.go:584-667), when no offset was stored yet and the latency is not one whose
     negative difference is dropped; later rounds add their difference to the offset stored before.
     */
    lemma OffsetsCorrect(promptLen: nat, numGPU: nat, impact: real, measuredITL: real, measuredPrefill: real)
      requires NonNegative() && numGPU >= 1 && impact >= -1.0 && measuredITL >= 0.0 && measuredPrefill >= 0.0
      ensures var untuned := this.(itlOffset := 0.0, ttftOffset := 0.0);
              var untunedPrefill := untuned.PrefillLatencyByPrompt(promptLen, numGPU, impact).0;
              var tuned := this.(itlOffset := measuredITL - untuned.InterTokenLatency(promptLen, numGPU, impact),
                                 ttftOffset := measuredPrefill - untunedPrefill);
              && tuned.InterTokenLatency(promptLen, numGPU, impact) == measuredITL
              && tuned.PrefillLatencyByPrompt(promptLen, numGPU, impact).0 == measuredPrefill
    {
      ReadTimeNonNegative(promptLen, numGPU);
      UncachedNonNegative(promptLen, numGPU);
      var untuned := this.(itlOffset := 0.0, ttftOffset := 0.0);
      var tuned := this.(itlOffset := measuredITL - untuned.InterTokenLatency(promptLen, numGPU, impact),
                         ttftOffset := measuredPrefill - untuned.PrefillLatencyByPrompt(promptLen, numGPU, impact).0);
      hide ReadTime, Uncached, BasePrefill, CacheShare, Scaled;
      OffsetsApart(promptLen, numGPU, untuned);
      OffsetsApart(promptLen, numGPU, tuned);
      ScaledNonNegative(ReadTime(promptLen, numGPU), impact);
      ScaledNonNegative(Uncached(promptLen, numGPU), impact);
    }

    lemma OffsetsApart(promptLen: nat, numGPU: nat, other: LatencyEstimator)
      requires numGPU >= 1 && other == this.(itlOffset := other.itlOffset, ttftOffset := other.ttftOffset)
      ensures other.ReadTime(promptLen, numGPU) == ReadTime(promptLen, numGPU)
      ensures other.Uncached(promptLen, numGPU) == Uncached(promptLen, numGPU)
    {
    }

    lemma ReadTimeNonNegative(promptLen: nat, numGPU: nat)
      requires NonNegative() && numGPU >= 1
      ensures ReadTime(promptLen, numGPU) >= 0.0
    {
      MulMono2(0.0, kvReadTimePerPromptToken, 0.0, promptLen as real);
      DivMono(0.0, totalWeightReadTime + kvReadTimePerPromptToken * promptLen as real, numGPU as real);
    }

    lemma UncachedNonNegative(promptLen: nat, numGPU: nat)
      requires NonNegative() && numGPU >= 1
      ensures Uncached(promptLen, numGPU) >= 0.0
    {
      var work := promptLen as real * effectiveBatch;
      MulMono2(0.0, promptLen as real, 0.0, effectiveBatch);
      MulMono2(0.0, prefillLatencyPerPromptLen, 0.0, work);
      DivMono(0.0, prefillLatencyPerPromptLen * work, numGPU as real);
      var base, saved := BasePrefill(promptLen, numGPU), CacheShare();
      assert base >= 0.0 && saved <= 1.0;
      hide BasePrefill, CacheShare;
      MulMono(saved, 1.0, base);
    }
  }

  /** A latency under an allocation impact: faster below zero, slower above. */
  function Scaled(x: real, impact: real): real { x * (1.0 + impact) }

  function Clamped(x: real): real { if x < 0.0 then 0.0 else x }

  lemma SharedWork(work: real, saved: real, scale: real, n: real)
    requires n > 0.0
    ensures (work / n) * saved * n == work * saved
    ensures ((work / n - (work / n) * saved) * scale) * n == (work - work * saved) * scale
  {
    var each := work / n;
    assert each * n == work;
    assert (each * saved) * n == work * saved;
    assert (each - each * saved) * n == work - work * saved;
    Swap(each - each * saved, scale, n);
  }

  lemma Swap(x: real, y: real, z: real)
    ensures (x * y) * z == (x * z) * y
  {
  }

  lemma ScaledGrows(x: real, impact1: real, impact2: real)
    requires x >= 0.0 && impact1 <= impact2
    ensures Scaled(x, impact1) <= Scaled(x, impact2)
  {
    MulMono(1.0 + impact1, 1.0 + impact2, x);
  }

  lemma ScaledNonNegative(x: real, impact: real)
    requires x >= 0.0 && impact >= -1.0
    ensures Scaled(x, impact) >= 0.0
  {
    MulMono2(0.0, x, 0.0, 1.0 + impact);
  }
}
