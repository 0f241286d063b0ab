/**
 Why the squeeze needs SearchOptimality.NoPeak: Llama 3 8B on an H200 with two replicas. The scan stops
 at full compute although a tenth of it passes, because the wait there comes out negative.
 */
module SqueezeCounterexample {
  import opened Wrappers
  import opened RealMath
  import opened QueueAnalyzer
  import opened LatencyEstimator
  import opened ResourceOptimizer
  import opened SearchOptimality
  import opened SpecConstraints
  import opened OptimizerInputs

  /** Compute 100, 55 or 10 percent, one GPU a replica, two replicas at most; 0.7 requests a second, 3 + 600 tokens. */
  const INPUTS := Inputs(
    LLAMA_3_8B, H200, Hint(1, 1, None, 0.0, 1.0),
    Some(Constraints(Some(2), Some(1), Some(CapacityRange(Some(10.0), Some(100.0), Some(45.0))), None)),
    Traffic(0.7, 3, 600, 0.0))

  /** The other two targets are the defaults. */
  const TARGETS := LatencyTargets(Some(1700.0), Some(1000.0), Some(50.0))

  /** Milliseconds that scale with the allocation impact: prefill of 3 tokens and 600 token steps. */
  const SCALED := 48.0 / 989.0 + 600.0 * (10.0 / 3.0 + 3.0 * 131072.0 / 4800000000.0)

  const OCCUPANCY := 300.0 / 61.0

  function Seconds(impact: real): real { (16.0 + SCALED * (1.0 + impact)) / 1000.0 }

  lemma Built(p: Problem)
    requires p == INPUTS.Build()
    ensures INPUTS.Validated() && p.Valid() && BuiltFrom(p, INPUTS.spec)
    ensures p.arrivalRate == 0.7 && p.promptTokens == 3 && p.outputTokens == 600 && p.maxReplicas == 2
    ensures p.constraints == GPUResourceConstraints(10.0, 100.0, 45.0, 8589934592, 85899345920, 1073741824, 2, 1)
    ensures p.estimator.overprovisionSpeedUp == 0.5 && p.estimator.underprovisionContentionImpact == 0.08
  {
    INPUTS.BuildIsValid();
  }

  lemma Needs(p: Problem)
    requires p == INPUTS.Build() && p.Valid()
    ensures p.Requirements(1).threadOccupancy == OCCUPANCY && p.RequiredBytes(1) <= 85899345920
  {
    var e := p.estimator;
    assert e.PrefillTokens(3, 0.0) == 3.0;
    assert e.ThreadOccupancy(3.0, 1) == OCCUPANCY;
    assert e.MemoryUsage(3, 600, 3.0, 1) <= 20.0;
  }

  lemma GridOf(p: Problem)
    requires p == INPUTS.Build() && p.Valid()
    ensures p.ComputeFloor(1) == 10.0
    ensures p.Grid(0) == 100.0 && p.Grid(1) == 55.0 && p.Grid(2) == 10.0
  {
    Needs(p);
    Built(p);
  }

  lemma LatencyOf(l: LatencyEstimator, impact: real)
    requires l == INPUTS.Latency() && -1.0 <= impact <= 0.0
    ensures var f := l.EstimateLatency(3, 600, 1, impact);
            f.ServiceSeconds() == Seconds(impact) && f.itl <= 50.0 && f.prefill <= 1000.0
  {
    assert l.BasePrefill(3, 1) == 48.0 / 989.0;
    assert l.CacheShare() == 0.0;
    assert l.ReadTime(3, 1) == 10.0 / 3.0 + 3.0 * 131072.0 / 4800000000.0;
    assert l.kernelOverhead == 16.0;
  }

  /** Below half density the allocation speeds the GPU up by half the free share. */
  function Impact(compute: real): real
    requires compute > 0.0
  {
    -(1.0 - OCCUPANCY / compute) * 0.5
  }

  lemma ServiceTimes(p: Problem, compute: real)
    requires p == INPUTS.Build() && p.Valid() && 10.0 <= compute <= 100.0
    ensures var f := p.Estimate(1, compute);
            f.ServiceSeconds() == Seconds(Impact(compute)) && f.itl <= 50.0 && f.prefill <= 1000.0
  {
    Built(p);
    Needs(p);
    var density := OCCUPANCY / compute;
    QuotientLe(OCCUPANCY, 1.0, compute, 2.0);
    QuotientLe(0.0, OCCUPANCY, 1.0, compute);
    assert p.ImpactAt(OCCUPANCY, compute) == Impact(compute);
    LatencyOf(p.latency, Impact(compute));
  }

  /** The verdict is stability and the end-to-end comparison. */
  lemma Verdict(p: Problem, replicas: nat, compute: real, t: real)
    requires p == INPUTS.Build() && p.Valid() && replicas >= 1 && 10.0 <= compute <= 100.0
    requires t == Seconds(Impact(compute)) && t > 0.0 && 0.7 * t < replicas as real
    ensures p.Passes(TARGETS, replicas, 1, compute) <==> !EndToEnd(0.7, t, replicas).Exceeds(1700.0)
  {
    Built(p);
    ServiceTimes(p, compute);
    hide Problem.Estimate, Queued, EndToEnd, Seconds, Problem.Valid;
    QueuedFields(0.7, replicas, p.Estimate(1, compute));
  }

  const FULL := Seconds(Impact(100.0))
  const MIDDLE := Seconds(Impact(55.0))
  const LOW := Seconds(Impact(10.0))

  lemma FullCompute()
    ensures 0.0 < 0.7 * FULL < 1.0 && !EndToEnd(0.7, FULL, 2).Exceeds(1700.0)
  {
  }

  lemma FullComputeAlone()
    ensures 0.0 < 0.7 * FULL < 1.0 && EndToEnd(0.7, FULL, 1).Exceeds(1700.0)
  {
  }

  lemma MiddleCompute()
    ensures 0.0 < 0.7 * MIDDLE < 1.0 && EndToEnd(0.7, MIDDLE, 2).Exceeds(1700.0)
  {
  }

  lemma LowCompute()
    ensures 1.0 < 0.7 * LOW < 2.0 && !EndToEnd(0.7, LOW, 2).Exceeds(1700.0)
  {
  }

  lemma Verdicts(p: Problem)
    requires p == INPUTS.Build() && p.Valid()
    ensures p.Passes(TARGETS, 2, 1, 100.0) && !p.Passes(TARGETS, 1, 1, 100.0)
    ensures !p.Passes(TARGETS, 2, 1, 55.0) && p.Passes(TARGETS, 2, 1, 10.0)
  {
    hide Problem.Passes, EndToEnd, Problem.Valid, Seconds, Impact;
    FullCompute();
    FullComputeAlone();
    MiddleCompute();
    LowCompute();
    Verdict(p, 2, 100.0, FULL);
    Verdict(p, 1, 100.0, FULL);
    Verdict(p, 2, 55.0, MIDDLE);
    Verdict(p, 2, 10.0, LOW);
  }

  /** With one GPU a replica and two replicas at most there are two candidates. */
  lemma SecondOfTwo(p: Problem, targets: LatencyTargets)
    requires p.Valid() && p.maxReplicas == 2 && p.constraints.maxGPUsPerReplica == 1 && p.constraints.totalGPUs == 2
    requires p.RequiredBytes(1) <= p.constraints.maxMemoryBytes
    requires p.FeasibleAtMax(targets, 2, 1) && !p.FeasibleAtMax(targets, 1, 1)
    ensures p.FirstFeasible(targets, 2, 1)
  {
    hide Problem.FeasibleAtMax, Problem.RequiredBytes, Problem.Valid;
    assert forall r, g :: p.Candidate(r, g) && Before(r, g, 2, 1) ==> (r, g) == (1, 1);
  }

  lemma ScanStopsAtOnce(p: Problem)
    requires p == INPUTS.Build() && p.Valid()
    ensures p.Squeezed(TARGETS, 2, 1).requestedCompute == 100.0
    ensures p.OnGrid(1, 2) && p.Grid(2) == 10.0 && !NoPeak(p, 2, 1)
  {
    GridOf(p);
    Verdicts(p);
    p.GridIndices(1, 1);
    p.GridIndices(1, 2);
    hide Problem.Passes, Problem.LastIndex, Problem.Requirements, Problem.RequiredBytes, Problem.Estimate;
    hide Problem.Valid, Problem.Grid, Problem.ComputeFloor, Problem.AlignedBytes, NoPeak;
    assert p.GreedyIndex(TARGETS, 2, 1, 0) == 0;
    BruteIndexIsLargest(p, TARGETS, 2, 1, p.LastIndex(1), 2);
    if NoPeak(p, 2, 1) {
      NoPeakSuffices(p, TARGETS, 2, 1);
    }
  }

  /** On validated inputs the search answers 100 percent compute although 10 percent is on its grid and passes. */
  lemma SqueezeMissesCheaperCompute()
    ensures INPUTS.Validated() && INPUTS.Build().Valid()
    ensures var p := INPUTS.Build();
            && p.FirstFeasible(TARGETS, 2, 1)
            && p.Squeezed(TARGETS, 2, 1).requestedCompute == 100.0
            && p.OnGrid(1, 2) && p.Grid(2) == 10.0 && p.Passes(TARGETS, 2, 1, 10.0)
            && !NoPeak(p, 2, 1)
  {
    var p := INPUTS.Build();
    Built(p);
    Needs(p);
    ScanStopsAtOnce(p);
    Verdicts(p);
    hide Problem.RequiredBytes, Problem.Valid, Inputs.Build, Problem.Passes, Inputs.Validated;
    hide NoPeak, Problem.FirstFeasible, Problem.Squeezed, Problem.OnGrid, Problem.Grid;
    SecondOfTwo(p, TARGETS);
  }
}
