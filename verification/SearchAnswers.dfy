/**
 What an answer of the search promises whoever asked: the limits of the spec, enough memory for weights, cache,
 activations and attention, and figures within the targets exactly when it says so.
 */
module SearchAnswers {
  import opened Wrappers
  import opened RealMath
  import opened QueueAnalyzer
  import opened ResourceEstimator
  import opened ResourceOptimizer
  import opened OptimizerInputs
  import SearchOptimality

  /** What a replica must hold at the problem's traffic. */
  function NeededGigabytes(p: Problem): real {
    p.estimator.ReplicaGigabytes(p.promptTokens, p.outputTokens,
                                 p.estimator.PrefillTokens(p.promptTokens, p.prefixCacheHitRate))
  }

  /** Fewer arrivals than the replicas serve, and no figure over its target. */
  predicate Acceptable(arrivalRate: real, targets: LatencyTargets, replicas: int, f: LatencyFigures) {
    && arrivalRate * ((f.prefill + f.decode) / 1000.0) < replicas as real
    && (targets.e2e.Some? ==> f.e2e.Finite? && f.e2e.v <= targets.e2e.value)
    && (targets.ttft.Some? ==> f.ttft <= targets.ttft.value)
    && (targets.itl.Some? ==> f.itl <= targets.itl.value)
  }

  lemma BytesCoverIff(p: Problem, gpus: nat, bytes: int)
    requires p.Valid() && gpus >= 1
    ensures p.RequiredBytes(gpus) <= bytes <==> 1000000000.0 * NeededGigabytes(p) <= bytes as real * gpus as real
  {
    var each, needed := p.Requirements(gpus).memoryGB, NeededGigabytes(p);
    assert p.RequiredBytes(gpus) == Ceil(each * 1000000000.0);
    assert each * gpus as real == needed by {
      p.estimator.MemoryLaw(p.promptTokens, p.outputTokens, p.prefixCacheHitRate, gpus);
      hide ResourceEstimator.PrefillTokens, ResourceEstimator.MemoryUsage, ResourceEstimator.ThreadOccupancy;
      hide ResourceEstimator.ReplicaGigabytes;
    }
    hide *;
    CeilLe(each * 1000000000.0, bytes);
    ScaledCover(each, bytes as real, gpus as real, needed);
  }

  lemma CeilLe(x: real, n: int)
    ensures Ceil(x) <= n <==> x <= n as real
  {
  }

  lemma ScaledCover(each: real, y: real, k: real, all: real)
    requires k > 0.0 && each * k == all
    ensures each * 1000000000.0 <= y <==> 1000000000.0 * all <= y * k
  {
    Regroup(1000000000.0, each, k);
    ScaledLe(1000000000.0 * each, y, k);
  }

  lemma ScaledLe(x: real, y: real, k: real)
    requires k > 0.0
    ensures x <= y <==> x * k <= y * k
  {
    if x > y {
      assert (x - y) * k > 0.0;
    }
  }

  /** The pairs searched are those within the limits whose replica fits its GPUs' maximum memory. */
  lemma CandidateIff(p: Problem, replicas: int, gpus: int)
    requires p.Valid()
    ensures p.Candidate(replicas, gpus) <==>
              && 1 <= replicas <= p.maxReplicas && 1 <= gpus <= p.constraints.maxGPUsPerReplica
              && (p.constraints.totalGPUs > 0 ==> replicas * gpus <= p.constraints.totalGPUs)
              && 1000000000.0 * NeededGigabytes(p) <= p.constraints.maxMemoryBytes as real * gpus as real
  {
    if gpus >= 1 {
      BytesCoverIff(p, gpus, p.constraints.maxMemoryBytes);
    }
    hide Problem.RequiredBytes, NeededGigabytes;
  }

  /** An evaluation says it meets the constraints exactly when its own figures are acceptable. */
  lemma MeetsIff(p: Problem, targets: LatencyTargets, replicas: nat, gpus: nat, compute: real, bytes: int)
    requires p.Valid() && replicas >= 1 && gpus >= 1
    ensures var c := p.Evaluate(targets, replicas, gpus, compute, bytes);
            && (c.meetsConstraints <==> Acceptable(p.arrivalRate, targets, replicas, c.estimatedLatency))
            && c.replicas == replicas && c.gpusPerReplica == gpus && c.totalGPUs == replicas * gpus
            && c.requestedCompute == compute && c.requestedMemoryGB * 1073741824.0 == bytes as real
  {
    hide Problem.Estimate, Queued, Acceptable, LatencyTargets.MeetsAllTargets;
    AcceptableIff(p.arrivalRate, targets, replicas, p.Estimate(gpus, compute));
  }

  lemma AcceptableIff(arrivalRate: real, targets: LatencyTargets, servers: nat, f: LatencyFigures)
    requires arrivalRate >= 0.0 && f.ServiceTime() >= 0.0 && servers >= 1
    ensures Stable(arrivalRate, f.ServiceSeconds(), servers)
              && targets.MeetsAllTargets(Queued(arrivalRate, servers, f))
            <==> Acceptable(arrivalRate, targets, servers, Queued(arrivalRate, servers, f))
  {
    hide EndToEnd, WaitSeconds, Population;
    assert Queued(arrivalRate, servers, f).prefill == f.prefill && Queued(arrivalRate, servers, f).decode == f.decode;
  }

  /** The compute of an answer is a grid value, its memory a whole number of bytes that covers the requirement. */
  lemma AnswerOnGrid(p: Problem, targets: LatencyTargets, c: OptimalConfiguration) returns (i: nat, bytes: int)
    requires p.Valid() && p.Answers(targets, c)
    ensures p.Candidate(c.replicas, c.gpusPerReplica)
    ensures c.requestedCompute == p.Grid(i) && p.OnGrid(c.gpusPerReplica, i)
    ensures c == p.Evaluate(targets, c.replicas, c.gpusPerReplica, p.Grid(i), bytes)
    ensures bytes >= p.RequiredBytes(c.gpusPerReplica)
  {
    hide Problem.Passes, Problem.Estimate, Problem.RequiredBytes, Problem.LastIndex, Problem.AlignedBytes;
    hide Problem.ComputeFloor;
    if c.meetsConstraints {
      i := p.GreedyIndex(targets, c.replicas, c.gpusPerReplica, 0);
      p.GridIndices(c.gpusPerReplica, i);
      bytes := p.AlignedBytes(c.gpusPerReplica);
      SearchOptimality.AlignedMemory(p, c.gpusPerReplica);
    } else {
      i, bytes := 0, p.constraints.maxMemoryBytes;
    }
  }

  /** Every answer keeps the limits, and meets the targets exactly when it says so. */
  lemma AnswerKeepsLimits(p: Problem, targets: LatencyTargets, c: OptimalConfiguration)
    requires p.Valid() && p.Answers(targets, c)
    ensures 1 <= c.replicas <= p.maxReplicas && 1 <= c.gpusPerReplica <= p.constraints.maxGPUsPerReplica
    ensures c.totalGPUs == c.replicas * c.gpusPerReplica
    ensures p.constraints.totalGPUs > 0 ==> c.totalGPUs <= p.constraints.totalGPUs
    ensures c.meetsConstraints <==> Acceptable(p.arrivalRate, targets, c.replicas, c.estimatedLatency)
  {
    var i, bytes := AnswerOnGrid(p, targets, c);
    MeetsIff(p, targets, c.replicas, c.gpusPerReplica, p.Grid(i), bytes);
    hide Problem.Answers, Acceptable, Problem.RequiredBytes, Problem.Evaluate, Problem.Grid;
  }

  /** And its memory is a whole number of bytes that, over the GPUs of a replica, hold the whole replica. */
  lemma AnswerHoldsReplica(p: Problem, targets: LatencyTargets, c: OptimalConfiguration) returns (bytes: int)
    requires p.Valid() && p.Answers(targets, c)
    ensures c.requestedMemoryGB * 1073741824.0 == bytes as real
    ensures bytes as real * c.gpusPerReplica as real >= 1000000000.0 * NeededGigabytes(p)
  {
    var i, covering := AnswerOnGrid(p, targets, c);
    bytes := covering;
    assert c.requestedMemoryGB * 1073741824.0 == bytes as real by {
      hide *;
      BytesOf(p, targets, c.replicas, c.gpusPerReplica, p.Grid(i), bytes);
    }
    assert bytes as real * c.gpusPerReplica as real >= 1000000000.0 * NeededGigabytes(p) by {
      hide *;
      BytesCoverIff(p, c.gpusPerReplica, bytes);
    }
    hide *;
  }

  lemma BytesOf(p: Problem, targets: LatencyTargets, replicas: nat, gpus: nat, compute: real, bytes: int)
    requires p.Valid() && replicas >= 1 && gpus >= 1
    ensures p.Evaluate(targets, replicas, gpus, compute, bytes).requestedMemoryGB * 1073741824.0 == bytes as real
  {
    hide Problem.Estimate, Queued, Problem.Passes, Problem.Requirements;
  }

  /** Nothing within the limits that fits and comes before the answer is acceptable at full compute. */
  lemma NothingEarlier(p: Problem, targets: LatencyTargets, c: OptimalConfiguration, replicas: int, gpus: int)
    requires p.Valid() && p.Answers(targets, c)
    requires 1 <= replicas <= p.maxReplicas && 1 <= gpus <= p.constraints.maxGPUsPerReplica
    requires p.constraints.totalGPUs > 0 ==> replicas * gpus <= p.constraints.totalGPUs
    requires 1000000000.0 * NeededGigabytes(p) <= p.constraints.maxMemoryBytes as real * gpus as real
    requires c.meetsConstraints ==> replicas < c.replicas || (replicas == c.replicas && gpus < c.gpusPerReplica)
    ensures var full := p.Evaluate(targets, replicas, gpus, p.constraints.maxThreadPercentage,
                                   p.constraints.maxMemoryBytes);
            !Acceptable(p.arrivalRate, targets, replicas, full.estimatedLatency)
  {
    CandidateIff(p, replicas, gpus);
    assert !p.FeasibleAtMax(targets, replicas, gpus) by {
      hide Problem.FeasibleAtMax, Problem.Candidate, Problem.Squeezed, Problem.Evaluate, NeededGigabytes;
    }
    assert !p.Evaluate(targets, replicas, gpus, p.constraints.maxThreadPercentage,
                       p.constraints.maxMemoryBytes).meetsConstraints by {
      hide Problem.Passes, Problem.Estimate;
    }
    hide Problem.Answers, Problem.FeasibleAtMax, Problem.Candidate, Problem.Evaluate, Acceptable, NeededGigabytes;
    MeetsIff(p, targets, replicas, gpus, p.constraints.maxThreadPercentage, p.constraints.maxMemoryBytes);
  }

  /** Llama 3 8B on an H200, 64 sequences at a time of 1 + 600 tokens, and nothing said about constraints. */
  const INPUTS := Inputs(LLAMA_3_8B, H200, Hint(100, 64, None, 0.0, 1.0), None, Traffic(0.1, 1, 600, 0.0))

  lemma Gigabytes(p: Problem)
    requires p == INPUTS.Build() && p.Valid()
    ensures NeededGigabytes(p)
         == 1.2 * (16.0 + 4096.0 * 601.0 * 131072.0 / 1000000000.0 + 64.0 * 2621440.0 / 1000000000.0)
  {
    var e := p.estimator;
    assert e.PrefillTokens(1, 0.0) == 64.0;
    assert e.modelSize == 16.0 && e.memoryPerToken == 131072.0 && e.activeMemoryPerPrefillToken == 2621440.0;
  }

  /** Weights would fit one GPU of 80 GiB; with the cache of all tokens five to eight are searched. */
  lemma CacheNeedsFiveGPUs()
    ensures INPUTS.Validated() && INPUTS.Build().Valid()
    ensures forall replicas, gpus :: INPUTS.Build().Candidate(replicas, gpus) <==> 1 <= replicas <= 10 && 5 <= gpus <= 8
  {
    var p := INPUTS.Build();
    INPUTS.BuildIsValid();
    Gigabytes(p);
    assert p.maxReplicas == 10 && p.constraints.totalGPUs == 0;
    assert p.constraints.maxGPUsPerReplica == 8 && p.constraints.maxMemoryBytes == 85899345920;
    forall replicas, gpus
      ensures p.Candidate(replicas, gpus) <==> 1 <= replicas <= 10 && 5 <= gpus <= 8
    {
      CandidateIff(p, replicas, gpus);
      hide Inputs.Build, Problem.Candidate, NeededGigabytes, Problem.Valid;
    }
  }
}
