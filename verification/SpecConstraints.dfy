/**
 extractGPUConstraints and getMaxReplicas, and what they imply for a search that finds nothing
 feasible: the GPU budget never binds and memory only shrinks with more GPUs.
 */
module SpecConstraints {
  import opened Wrappers
  import opened RealMath
  import opened ResourceOptimizer

  datatype CapacityRange<T> = CapacityRange(min: Option<T>, max: Option<T>, step: Option<T>)

  /** The fields of the autoscaler's Constraints that reach the optimizer. */
  datatype Constraints = Constraints(
    maxReplicas: Option<int>,
    maxCountPerReplica: Option<int>,
    compute: Option<CapacityRange<real>>,
    memory: Option<CapacityRange<int>>)
  {
    /** The CRD's validation minima. */
    predicate Validated() {
      && (maxReplicas.Some? ==> maxReplicas.value >= 1)
      && (maxCountPerReplica.Some? ==> maxCountPerReplica.value >= 1)
    }
  }

  function OrDefault<T>(o: Option<T>, default: T): T {
    match o
    case Some(v) => v
    case None => default
  }

  function GetMaxReplicas(constraints: Option<Constraints>): int {
    if constraints.Some? then OrDefault(constraints.value.maxReplicas, 10) else 10
  }

  const GIB := 1073741824

  function ExtractGPUConstraints(spec: Option<Constraints>): GPUResourceConstraints {
    var unset := CapacityRange(None, None, None);
    var compute := if spec.Some? then OrDefault(spec.value.compute, unset) else unset;
    var anySize := CapacityRange(None, None, None);
    var memory := if spec.Some? then OrDefault(spec.value.memory, anySize) else anySize;
    var perReplica := if spec.Some? then spec.value.maxCountPerReplica else None;
    GPUResourceConstraints(
      OrDefault(compute.min, 1.0), OrDefault(compute.max, 100.0), OrDefault(compute.step, 1.0),
      OrDefault(memory.min, 8 * GIB), OrDefault(memory.max, 80 * GIB), OrDefault(memory.step, GIB),
      if perReplica.Some? then perReplica.value * GetMaxReplicas(spec) else 0,
      OrDefault(perReplica, 8))
  }

  /** Every bound of the spec is taken as it is stated, and has its default where it is not. */
  lemma StatedOrDefault(spec: Option<Constraints>)
    ensures var g := ExtractGPUConstraints(spec);
            var cs := if spec.Some? && spec.value.compute.Some? then spec.value.compute.value
                      else CapacityRange(None, None, None);
            var ms := if spec.Some? && spec.value.memory.Some? then spec.value.memory.value
                      else CapacityRange(None, None, None);
            && g.minThreadPercentage == (if cs.min.Some? then cs.min.value else 1.0)
            && g.maxThreadPercentage == (if cs.max.Some? then cs.max.value else 100.0)
            && g.stepThreadPercentage == (if cs.step.Some? then cs.step.value else 1.0)
            && g.minMemoryBytes == (if ms.min.Some? then ms.min.value else 8589934592)
            && g.maxMemoryBytes == (if ms.max.Some? then ms.max.value else 85899345920)
            && g.stepMemoryBytes == (if ms.step.Some? then ms.step.value else 1073741824)
            && GetMaxReplicas(spec) == (if spec.Some? && spec.value.maxReplicas.Some? then spec.value.maxReplicas.value
                                        else 10)
            && (g.maxGPUsPerReplica, g.totalGPUs) ==
                 if spec.Some? && spec.value.maxCountPerReplica.Some?
                 then (spec.value.maxCountPerReplica.value, spec.value.maxCountPerReplica.value * GetMaxReplicas(spec))
                 else (8, 0)
  {
  }

  /** A problem as NewResourceOptimizer builds it. */
  predicate BuiltFrom(p: Problem, spec: Option<Constraints>) {
    && p.Valid() && p.prefixCacheHitRate <= 1.0
    && (spec.Some? ==> spec.value.Validated())
    && p.constraints == ExtractGPUConstraints(spec) && p.maxReplicas == GetMaxReplicas(spec)
  }

  lemma BudgetNeverBinds(p: Problem, spec: Option<Constraints>, replicas: int, gpus: int)
    requires BuiltFrom(p, spec)
    requires 1 <= replicas <= p.maxReplicas && 1 <= gpus <= p.constraints.maxGPUsPerReplica
    ensures p.Candidate(replicas, gpus) <==> p.RequiredBytes(gpus) <= p.constraints.maxMemoryBytes
  {
    if p.constraints.totalGPUs > 0 {
      ProductMono(replicas, p.maxReplicas, gpus, p.constraints.maxGPUsPerReplica);
    }
  }

  lemma RequiredBytesShrink(p: Problem, few: nat, many: nat)
    requires p.Valid() && p.prefixCacheHitRate <= 1.0 && 1 <= few <= many
    ensures p.RequiredBytes(many) <= p.RequiredBytes(few)
  {
    p.estimator.MemoryShrinksWithGPUs(p.promptTokens, p.outputTokens, p.prefixCacheHitRate, few, many);
    var x, y := p.Requirements(many).memoryGB, p.Requirements(few).memoryGB;
    hide Problem.Requirements;
    MulMono(x, y, 1000000000.0);
  }

  /** The search errors exactly when the largest GPU count, hence every one, needs too much memory. */
  lemma SearchFailsOnlyOnMemory(p: Problem, spec: Option<Constraints>)
    requires BuiltFrom(p, spec)
    ensures p.NoCandidate() <==> p.RequiredBytes(p.constraints.maxGPUsPerReplica) > p.constraints.maxMemoryBytes
    ensures p.NoCandidate() <==>
              forall g :: 1 <= g <= p.constraints.maxGPUsPerReplica ==>
                p.RequiredBytes(g) > p.constraints.maxMemoryBytes
  {
    var most := p.constraints.maxGPUsPerReplica;
    BudgetNeverBinds(p, spec, 1, most);
    forall g | 1 <= g <= most
      ensures p.RequiredBytes(most) <= p.RequiredBytes(g)
    {
      RequiredBytesShrink(p, g, most);
    }
    hide Problem.RequiredBytes;
    if p.RequiredBytes(most) > p.constraints.maxMemoryBytes {
      assert p.NoCandidate();
    } else {
      assert p.Candidate(1, most);
    }
  }

  /** The last candidate of the scan is the maximum configuration, so that is what an infeasible search returns. */
  lemma InfeasibleSearchEndsAtMaximum(p: Problem, spec: Option<Constraints>, replicas: int, gpus: int)
    requires BuiltFrom(p, spec) && p.LastCandidate(replicas, gpus)
    ensures replicas == p.maxReplicas && gpus == p.constraints.maxGPUsPerReplica
  {
    var most := p.constraints.maxGPUsPerReplica;
    RequiredBytesShrink(p, gpus, most);
    BudgetNeverBinds(p, spec, p.maxReplicas, most);
    assert p.Candidate(p.maxReplicas, most);
  }
}
