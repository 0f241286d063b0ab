/**
 internal/optimizer/resource_optimizer.go: the search over (replicas, GPUs per replica) followed
 by the compute squeeze. A Problem is the value of everything the search reads; the class
 ResourceOptimizer holds those fields and runs the loops.
 */
module ResourceOptimizer {
  import opened RealMath
  import opened Wrappers
  import opened QueueAnalyzer
  import opened LatencyEstimator
  import opened ResourceEstimator

  datatype GPUResourceConstraints = GPUResourceConstraints(
    minThreadPercentage: real,
    maxThreadPercentage: real,
    stepThreadPercentage: real,
    minMemoryBytes: int,
    maxMemoryBytes: int,
    stepMemoryBytes: int,
    /** 0 means unlimited */
    totalGPUs: int,
    maxGPUsPerReplica: int)

  datatype LatencyTargets = LatencyTargets(e2e: Option<real>, ttft: Option<real>, itl: Option<real>)
  {
    predicate MeetsAllTargets(result: LatencyFigures) {
      && (e2e.None? || !result.e2e.Exceeds(e2e.value))
      && (ttft.None? || result.ttft <= ttft.value)
      && (itl.None? || result.itl <= itl.value)
    }
  }

  datatype OptimalConfiguration = OptimalConfiguration(
    replicas: int,
    gpusPerReplica: int,
    requestedCompute: real,
    requestedMemoryGB: real,
    totalGPUs: int,
    estimatedLatency: LatencyFigures,
    resourceRequirements: ResourceRequirements,
    meetsConstraints: bool)

  const BYTES_PER_GB := 1073741824.0

  const NO_FIGURES := LatencyFigures(0.0, 0.0, 0.0, 0.0, 0.0)

  const NO_CONFIGURATION := OptimalConfiguration(0, 0, 0.0, 0.0, 0, NO_FIGURES, ResourceRequirements(0.0, 0.0), false)

  datatype Problem = Problem(
    estimator: ResourceEstimator,
    latency: LatencyEstimator,
    maxReplicas: int,
    prefixCacheHitRate: real,
    constraints: GPUResourceConstraints,
    arrivalRate: real,
    promptTokens: nat,
    outputTokens: nat)
  {
    /** Non-negative estimator fields and arrivals, and steps that let the two step computations end. */
    predicate Valid() {
      && estimator.NonNegative() && latency.NonNegative() && arrivalRate >= 0.0
      && constraints.stepThreadPercentage > 0.0 && constraints.stepMemoryBytes > 0
    }

    // ---------- one configuration ----------

    function Requirements(gpus: nat): ResourceRequirements
      requires Valid() && gpus >= 1
    {
      estimator.RequirementsPerGPU(promptTokens, outputTokens, prefixCacheHitRate, gpus)
    }

    function RequiredBytes(gpus: nat): int
      requires Valid() && gpus >= 1
    {
      Ceil(Requirements(gpus).memoryGB * 1000000000.0)
    }

    function AllocationImpact(ratio: real): real {
      DensityImpact(if ratio < 0.0 then 0.0 else if ratio > 1.0 then 1.0 else ratio,
                    estimator.overprovisionSpeedUp, estimator.underprovisionContentionImpact)
    }

    /** With no compute at all the ratio is +Inf, or NaN for zero occupancy, which passes every test. */
    function ImpactAt(occupancy: real, compute: real): real {
      if compute != 0.0 then AllocationImpact(occupancy / compute)
      else if occupancy == 0.0 then 0.0
      else AllocationImpact(if occupancy > 0.0 then 1.0 else 0.0)
    }

    function Estimate(gpus: nat, compute: real): (f: LatencyFigures)
      requires Valid() && gpus >= 1
      ensures f.ServiceTime() >= 0.0
    {
      var impact := ImpactAt(Requirements(gpus).threadOccupancy, compute);
      latency.LatencyGrowsWithImpact(promptTokens, outputTokens, gpus, impact, impact);
      latency.EstimateLatency(promptTokens, outputTokens, gpus, impact)
    }

    predicate StableAt(replicas: nat, gpus: nat, compute: real)
      requires Valid() && gpus >= 1
    {
      Stable(arrivalRate, Estimate(gpus, compute).ServiceSeconds(), replicas)
    }

    /** The verdict of a configuration: stable and within every target. Memory plays no part. */
    predicate Passes(targets: LatencyTargets, replicas: nat, gpus: nat, compute: real)
      requires Valid() && replicas >= 1 && gpus >= 1
    {
      && StableAt(replicas, gpus, compute)
      && targets.MeetsAllTargets(Queued(arrivalRate, replicas, Estimate(gpus, compute)))
    }

    function Evaluate(targets: LatencyTargets, replicas: nat, gpus: nat, compute: real, bytes: int)
      : OptimalConfiguration
      requires Valid() && replicas >= 1 && gpus >= 1
    {
      OptimalConfiguration(replicas, gpus, compute, bytes as real / BYTES_PER_GB, replicas * gpus,
                           Queued(arrivalRate, replicas, Estimate(gpus, compute)), Requirements(gpus),
                           Passes(targets, replicas, gpus, compute))
    }

    // ---------- the search space ----------

    predicate Candidate(replicas: int, gpus: int)
      requires Valid()
    {
      && 1 <= replicas <= maxReplicas && 1 <= gpus <= constraints.maxGPUsPerReplica
      && (constraints.totalGPUs > 0 ==> replicas * gpus <= constraints.totalGPUs)
      && RequiredBytes(gpus) <= constraints.maxMemoryBytes
    }

    predicate FeasibleAtMax(targets: LatencyTargets, replicas: int, gpus: int)
      requires Valid() && replicas >= 1 && gpus >= 1
    {
      Passes(targets, replicas, gpus, constraints.maxThreadPercentage)
    }

    /** No candidate that comes before (replicas, gpus) in the scan passes at maximum compute. */
    ghost predicate NoneFeasibleBefore(targets: LatencyTargets, replicas: int, gpus: int)
      requires Valid()
    {
      forall r, g :: Candidate(r, g) && Before(r, g, replicas, gpus) ==> !FeasibleAtMax(targets, r, g)
    }

    ghost predicate FirstFeasible(targets: LatencyTargets, replicas: int, gpus: int)
      requires Valid()
    {
      && Candidate(replicas, gpus) && FeasibleAtMax(targets, replicas, gpus)
      && NoneFeasibleBefore(targets, replicas, gpus)
    }

    ghost predicate NoneFeasible(targets: LatencyTargets)
      requires Valid()
    {
      forall r, g :: Candidate(r, g) ==> !FeasibleAtMax(targets, r, g)
    }

    /** The last candidate of the scan. */
    ghost predicate LastCandidate(replicas: int, gpus: int)
      requires Valid()
    {
      && Candidate(replicas, gpus)
      && forall r, g :: Candidate(r, g) ==> !Before(replicas, gpus, r, g)
    }

    ghost predicate NoCandidate()
      requires Valid()
    {
      forall r, g :: !Candidate(r, g)
    }

    /** What the search may answer: the first fit squeezed, or else the last candidate at maximum resources. */
    ghost predicate Answers(targets: LatencyTargets, c: OptimalConfiguration)
      requires Valid()
    {
      if c.meetsConstraints
      then FirstFeasible(targets, c.replicas, c.gpusPerReplica) && c == Squeezed(targets, c.replicas, c.gpusPerReplica)
      else
        && NoneFeasible(targets) && LastCandidate(c.replicas, c.gpusPerReplica)
        && c == Evaluate(targets, c.replicas, c.gpusPerReplica,
                         constraints.maxThreadPercentage, constraints.maxMemoryBytes)
    }

    // ---------- the squeeze ----------

    /** Compute after i reductions. */
    function Grid(i: nat): real {
      constraints.maxThreadPercentage - i as real * constraints.stepThreadPercentage
    }

    function ComputeFloor(gpus: nat): real
      requires Valid() && gpus >= 1
    {
      Max(Requirements(gpus).threadOccupancy, constraints.minThreadPercentage)
    }

    predicate OnGrid(gpus: nat, i: nat)
      requires Valid() && gpus >= 1
    {
      i == 0 || Grid(i) >= ComputeFloor(gpus)
    }

    /** How many reductions stay on the grid. */
    function LastIndex(gpus: nat): (n: nat)
      requires Valid() && gpus >= 1
    {
      var room := constraints.maxThreadPercentage - ComputeFloor(gpus);
      if room < 0.0 then 0
      else
        DivMono(0.0, room, constraints.stepThreadPercentage);
        (room / constraints.stepThreadPercentage).Floor
    }

    lemma GridIndices(gpus: nat, i: nat)
      requires Valid() && gpus >= 1
      ensures OnGrid(gpus, i) <==> i <= LastIndex(gpus)
    {
      StepsInRoom(constraints.maxThreadPercentage - ComputeFloor(gpus), constraints.stepThreadPercentage, i);
    }

    lemma NextOnGrid(gpus: nat, i: nat)
      requires Valid() && gpus >= 1 && i <= LastIndex(gpus)
      ensures Grid(i) - constraints.stepThreadPercentage == Grid(i + 1)
      ensures Grid(i + 1) >= ComputeFloor(gpus) <==> i < LastIndex(gpus)
    {
      GridIndices(gpus, i + 1);
    }

    /** Where the scan stops: the last index up to which every grid value passes. */
    function GreedyIndex(targets: LatencyTargets, replicas: nat, gpus: nat, i: nat): (n: nat)
      requires Valid() && replicas >= 1 && gpus >= 1
      requires i <= LastIndex(gpus)
      ensures i <= n <= LastIndex(gpus)
      decreases LastIndex(gpus) - i
    {
      if i < LastIndex(gpus) && Passes(targets, replicas, gpus, Grid(i + 1))
      then GreedyIndex(targets, replicas, gpus, i + 1)
      else i
    }

    /** The least multiple of the memory step above the minimum that covers the requirement. */
    function AlignedBytes(gpus: nat): int
      requires Valid() && gpus >= 1
    {
      var wanted := Max(RequiredBytes(gpus) as real, constraints.minMemoryBytes as real);
      var steps := Ceil((wanted - constraints.minMemoryBytes as real) / constraints.stepMemoryBytes as real);
      MemoryGrid(steps)
    }

    function MemoryGrid(k: int): int { constraints.minMemoryBytes + k * constraints.stepMemoryBytes }

    function Squeezed(targets: LatencyTargets, replicas: nat, gpus: nat): OptimalConfiguration
      requires Valid() && replicas >= 1 && gpus >= 1
    {
      Evaluate(targets, replicas, gpus, Grid(GreedyIndex(targets, replicas, gpus, 0)), AlignedBytes(gpus))
    }
  }

  /** A speedup below half density, a penalty above 0.8. */
  function DensityImpact(density: real, speedUp: real, contention: real): real {
    if density < 0.5 then -(1.0 - density) * speedUp
    else if density > 0.8 then (density - 0.8) * contention
    else 0.0
  }

  predicate Before(r1: int, g1: int, r2: int, g2: int) {
    r1 < r2 || (r1 == r2 && g1 < g2)
  }

  lemma BudgetDivides(replicas: int, gpus: int, total: int)
    requires replicas >= 1 && total > 0
    ensures replicas * gpus <= total <==> gpus <= total / replicas
  {
    var q := total / replicas;
    assert replicas * q <= total < replicas * (q + 1);
    if gpus <= q {
      assert replicas * gpus <= replicas * q;
    } else {
      assert replicas * gpus >= replicas * (q + 1);
    }
  }

  lemma StepsInRoom(room: real, step: real, i: nat)
    requires step > 0.0
    ensures i as real * step <= room <==> i as real <= room / step
    ensures room / step < 0.0 <==> room < 0.0
  {
  }

  class ResourceOptimizer {
    var queueAnalyzer: QueueAnalyzer
    var latencyEstimator: LatencyEstimator
    var resourceEstimator: ResourceEstimator
    var maxReplicas: int
    var prefixCacheHitRate: real
    var constraints: GPUResourceConstraints
    var arrivalRate: real
    var avgPromptTokens: nat
    var avgOutputTokens: nat

    constructor (resourceEstimator: ResourceEstimator, latencyEstimator: LatencyEstimator, maxReplicas: int,
                 prefixCacheHitRate: real, constraints: GPUResourceConstraints)
      ensures Snapshot() == Problem(resourceEstimator, latencyEstimator, maxReplicas, prefixCacheHitRate,
                                    constraints, 0.0, 0, 0)
    {
      this.resourceEstimator, this.latencyEstimator := resourceEstimator, latencyEstimator;
      this.maxReplicas, this.prefixCacheHitRate := maxReplicas, prefixCacheHitRate;
      this.constraints, this.arrivalRate := constraints, 0.0;
      this.avgPromptTokens, this.avgOutputTokens := 0, 0;
      this.queueAnalyzer := new QueueAnalyzer(0.0);
    }

    function Snapshot(): Problem
      reads this
    {
      Problem(resourceEstimator, latencyEstimator, maxReplicas, prefixCacheHitRate, constraints,
              arrivalRate, avgPromptTokens, avgOutputTokens)
    }

    method SetWorkloadParameters(arrivalRate: real, avgPromptTokens: nat, avgOutputTokens: nat)
      modifies this
      ensures Snapshot() == old(Snapshot()).(arrivalRate := arrivalRate, promptTokens := avgPromptTokens,
                                             outputTokens := avgOutputTokens)
      ensures fresh(queueAnalyzer) && queueAnalyzer.arrivalRate == arrivalRate
    {
      this.arrivalRate := arrivalRate;
      this.avgPromptTokens := avgPromptTokens;
      this.avgOutputTokens := avgOutputTokens;
      queueAnalyzer := new QueueAnalyzer(arrivalRate);
    }

    method SetLatencyOffsets(itlOffset: real, ttftOffset: real)
      modifies this`latencyEstimator
      ensures latencyEstimator == old(latencyEstimator).(itlOffset := itlOffset, ttftOffset := ttftOffset)
    {
      latencyEstimator := latencyEstimator.(itlOffset := itlOffset, ttftOffset := ttftOffset);
    }

    method EvaluateConfiguration(targets: LatencyTargets, replicas: nat, gpusPerReplica: nat, compute: real,
                                 memoryBytes: int, req: ResourceRequirements)
      returns (config: OptimalConfiguration, ok: bool)
      requires Snapshot().Valid() && replicas >= 1 && gpusPerReplica >= 1
      requires queueAnalyzer.arrivalRate == arrivalRate
      requires req == Snapshot().Requirements(gpusPerReplica)
      ensures config == Snapshot().Evaluate(targets, replicas, gpusPerReplica, compute, memoryBytes)
      ensures ok == Snapshot().StableAt(replicas, gpusPerReplica, compute)
      ensures config.meetsConstraints ==> ok
    {
      ghost var problem := Snapshot();
      var impact := Snapshot().ImpactAt(req.threadOccupancy, compute);
      var estimate := latencyEstimator.EstimateLatency(avgPromptTokens, avgOutputTokens, gpusPerReplica, impact);
      assert estimate == problem.Estimate(gpusPerReplica, compute);
      var latencyResult := new LatencyResult(estimate);
      config := OptimalConfiguration(replicas, gpusPerReplica, compute, memoryBytes as real / BYTES_PER_GB,
                                     replicas * gpusPerReplica, estimate, req, false);
      ok := queueAnalyzer.AddQueuingResults(replicas, latencyResult);
      config := config.(estimatedLatency := latencyResult.Figures());
      if ok {
        config := config.(meetsConstraints := targets.MeetsAllTargets(latencyResult.Figures()));
      }
    }

    /**
     The whole search. With a feasible candidate it returns the lexicographically first one, squeezed;
     otherwise the last candidate tested, at maximum resources; and it fails when nothing fits memory
     and budget.
     */
    method FindOptimalConfiguration(rate: real, targets: LatencyTargets) returns (result: Result<OptimalConfiguration>)
      requires Snapshot().(arrivalRate := rate).Valid()
      modifies this
      ensures Snapshot() == old(Snapshot()).(arrivalRate := rate) && Snapshot().Valid()
      ensures match result
        case Err(_) => Snapshot().NoCandidate()
        case Ok(c) => Snapshot().Answers(targets, c)
    {
      hide Ceil, Queued, ResourceEstimator.RequirementsPerGPU, Problem.Estimate, Problem.StableAt, Problem.Passes;
      hide Problem.Squeezed, Problem.ImpactAt, Problem.AllocationImpact;
      arrivalRate := rate;
      queueAnalyzer := new QueueAnalyzer(rate);
      ghost var problem := Snapshot();
      var bestConfig := NO_CONFIGURATION;
      var lastTested: Option<OptimalConfiguration> := None;

      var replicas := 1;
      label search:
      while replicas <= maxReplicas
        invariant replicas >= 1 && (maxReplicas >= 0 ==> replicas <= maxReplicas + 1)
        invariant Snapshot() == problem && queueAnalyzer.arrivalRate == arrivalRate
        invariant bestConfig == NO_CONFIGURATION
        invariant problem.NoneFeasibleBefore(targets, replicas, 1)
        invariant TestedUpTo(problem, targets, lastTested, replicas, 1)
        decreases maxReplicas - replicas
      {
        var maxGPUs := constraints.maxGPUsPerReplica;
        if constraints.totalGPUs > 0 {
          var budgetBasedMax := constraints.totalGPUs / replicas;
          if budgetBasedMax < maxGPUs {
            maxGPUs := budgetBasedMax;
          }
          if maxGPUs < 1 {
            NothingBeyondBudget(problem, replicas);
            break search;
          }
        }
        var gpus := 1;
        while gpus <= maxGPUs
          invariant gpus >= 1 && (maxGPUs >= 0 ==> gpus <= maxGPUs + 1)
          invariant Snapshot() == problem && queueAnalyzer.arrivalRate == arrivalRate
          invariant bestConfig == NO_CONFIGURATION
          invariant problem.NoneFeasibleBefore(targets, replicas, gpus)
          invariant TestedUpTo(problem, targets, lastTested, replicas, gpus)
          decreases maxGPUs - gpus
        {
          if constraints.totalGPUs > 0 {
            BudgetDivides(replicas, gpus, constraints.totalGPUs);
          }
          var resourceReq :=
            resourceEstimator.RequirementsPerGPU(avgPromptTokens, avgOutputTokens, prefixCacheHitRate, gpus);
          var requiredBytes := Ceil(resourceReq.memoryGB * 1000000000.0);
          if requiredBytes <= constraints.maxMemoryBytes {
            assert problem.Candidate(replicas, gpus);
            var config, ok := EvaluateConfiguration(targets, replicas, gpus, constraints.maxThreadPercentage,
                                                    constraints.maxMemoryBytes, resourceReq);
            lastTested := Some(config);
            if ok && config.meetsConstraints {
              bestConfig := SqueezeResources(targets, replicas, gpus, resourceReq, config);
              break search;
            }
          }
          gpus := gpus + 1;
        }
        RowDone(problem, replicas, gpus);
        replicas := replicas + 1;
      }

      if bestConfig.replicas != 0 {
        return Ok(bestConfig);
      }
      match lastTested
      case Some(config) => return Ok(config);
      case None => return Err("no configuration found within search space");
    }

    /** resource_optimizer.go:260-284: aligned minimum memory first, then less and less compute. */
    method SqueezeResources(targets: LatencyTargets, replicas: nat, gpus: nat, req: ResourceRequirements,
                            config: OptimalConfiguration) returns (best: OptimalConfiguration)
      requires Snapshot().Valid() && replicas >= 1 && gpus >= 1
      requires queueAnalyzer.arrivalRate == arrivalRate && req == Snapshot().Requirements(gpus)
      requires Snapshot().FeasibleAtMax(targets, replicas, gpus)
      ensures best == Snapshot().Squeezed(targets, replicas, gpus)
      ensures best.meetsConstraints && best.replicas == replicas && best.gpusPerReplica == gpus
    {
      hide Ceil, Queued, ResourceEstimator.RequirementsPerGPU, Problem.Estimate, Problem.StableAt;
      hide Problem.ImpactAt, Problem.AllocationImpact, Problem.Passes, Problem.LastIndex;
      ghost var problem := Snapshot();
      var requiredBytes := Ceil(req.memoryGB * 1000000000.0);
      var wanted := Max(requiredBytes as real, constraints.minMemoryBytes as real);
      var minCompute := Max(req.threadOccupancy, constraints.minThreadPercentage);
      var steps := Ceil((wanted - constraints.minMemoryBytes as real) / constraints.stepMemoryBytes as real);
      var alignedBytes := constraints.minMemoryBytes + steps * constraints.stepMemoryBytes;
      assert alignedBytes == problem.AlignedBytes(gpus);

      var minMemConfig, ok := EvaluateConfiguration(targets, replicas, gpus, constraints.maxThreadPercentage,
                                                    alignedBytes, req);
      if !ok || !minMemConfig.meetsConstraints {
        return config;
      }
      best := minMemConfig;
      hide Problem.AlignedBytes;
      ghost var i := 0;
      var compute := constraints.maxThreadPercentage - constraints.stepThreadPercentage;
      problem.NextOnGrid(gpus, 0);
      while compute >= minCompute
        invariant i <= problem.LastIndex(gpus)
        invariant compute == problem.Grid(i + 1)
        invariant compute >= minCompute <==> i < problem.LastIndex(gpus)
        invariant best == problem.Evaluate(targets, replicas, gpus, problem.Grid(i), alignedBytes)
        invariant best.meetsConstraints
        invariant problem.GreedyIndex(targets, replicas, gpus, 0) == problem.GreedyIndex(targets, replicas, gpus, i)
        decreases problem.LastIndex(gpus) - i
      {
        var shrinkConfig, stable := EvaluateConfiguration(targets, replicas, gpus, compute, alignedBytes, req);
        if !stable || !shrinkConfig.meetsConstraints {
          break;
        }
        best := shrinkConfig;
        i := i + 1;
        compute := compute - constraints.stepThreadPercentage;
        problem.NextOnGrid(gpus, i);
      }
    }
  }

  /** lastTested is the last candidate before (replicas, gpus), evaluated at maximum resources. */
  ghost predicate TestedUpTo(p: Problem, targets: LatencyTargets, lastTested: Option<OptimalConfiguration>,
                             replicas: int, gpus: int)
    requires p.Valid()
  {
    match lastTested
    case None => forall r, g :: p.Candidate(r, g) ==> !Before(r, g, replicas, gpus)
    case Some(c) =>
      && p.Candidate(c.replicas, c.gpusPerReplica) && Before(c.replicas, c.gpusPerReplica, replicas, gpus)
      && c == p.Evaluate(targets, c.replicas, c.gpusPerReplica, p.constraints.maxThreadPercentage,
                         p.constraints.maxMemoryBytes)
      && !c.meetsConstraints
      && forall r, g :: p.Candidate(r, g) && Before(c.replicas, c.gpusPerReplica, r, g)
           ==> !Before(r, g, replicas, gpus)
  }

  /** Stopping at TotalGPUs/replicas < 1 loses no candidate. */
  lemma NothingBeyondBudget(p: Problem, replicas: int)
    requires p.Valid() && replicas >= 1 && p.constraints.totalGPUs > 0
    requires p.constraints.maxGPUsPerReplica < 1 || p.constraints.totalGPUs / replicas < 1
    ensures forall r, g :: p.Candidate(r, g) ==> r < replicas
  {
  }

  /** After the inner loop every candidate of this row lies behind. */
  lemma RowDone(p: Problem, replicas: int, gpus: int)
    requires p.Valid() && replicas >= 1
    requires gpus > p.constraints.maxGPUsPerReplica
          || (p.constraints.totalGPUs > 0 && gpus > p.constraints.totalGPUs / replicas)
    ensures forall r, g :: p.Candidate(r, g) && Before(r, g, replicas + 1, 1) ==> Before(r, g, replicas, gpus)
  {
    forall r, g | p.Candidate(r, g) && Before(r, g, replicas + 1, 1)
      ensures Before(r, g, replicas, gpus)
    {
      if r == replicas && p.constraints.totalGPUs > 0 {
        BudgetDivides(r, g, p.constraints.totalGPUs);
      }
    }
  }
}
