/**
 When the first fit of the search is also the one with the fewest GPUs in all, and inputs for which it
 is not: one replica of three GPUs although two replicas of one GPU pass as well.
 */
module FewestGPUs {
  import opened Wrappers
  import opened RealMath
  import opened QueueAnalyzer
  import opened LatencyEstimator
  import opened ResourceOptimizer
  import opened SpecConstraints
  import opened OptimizerInputs
  import SearchOptimality

  ghost predicate UsesFewestGPUs(p: Problem, targets: LatencyTargets, replicas: int, gpus: int)
    requires p.Valid()
  {
    forall r, g :: p.Candidate(r, g) && p.FeasibleAtMax(targets, r, g) ==> r * g >= replicas * gpus
  }

  /** Whatever passes with fewer GPUs in all has more replicas, of fewer GPUs each. */
  lemma CheaperIsWider(p: Problem, targets: LatencyTargets, replicas: int, gpus: int, r: int, g: int)
    requires p.Valid() && p.FirstFeasible(targets, replicas, gpus)
    requires p.Candidate(r, g) && p.FeasibleAtMax(targets, r, g) && r * g < replicas * gpus
    ensures r > replicas && g < gpus
  {
    hide Problem.FeasibleAtMax, Problem.RequiredBytes, Problem.Valid;
    assert !Before(r, g, replicas, gpus);
    if g >= gpus {
      ProductMono(replicas, r, gpus, g);
    }
  }

  /** One GPU a replica, one replica of two, or no more replicas to try: first fit is least, for all targets. */
  lemma FewestWhenNarrow(p: Problem, targets: LatencyTargets, replicas: int, gpus: int)
    requires p.Valid() && p.FirstFeasible(targets, replicas, gpus)
    requires replicas == p.maxReplicas || replicas * (gpus - 1) <= 1
    ensures UsesFewestGPUs(p, targets, replicas, gpus)
  {
    forall r, g | p.Candidate(r, g) && p.FeasibleAtMax(targets, r, g)
      ensures r * g >= replicas * gpus
    {
      if r * g < replicas * gpus {
        CheaperIsWider(p, targets, replicas, gpus, r, g);
        hide Problem.FeasibleAtMax, Problem.RequiredBytes, Problem.Valid;
        assert replicas * (gpus - 1) == replicas * gpus - replicas;
        ProductMono(replicas + 1, r, 1, g);
      }
    }
  }

  /** The fewest replicas whose service rate exceeds the arrivals, at full compute. */
  function LeastReplicas(p: Problem, gpus: nat): int
    requires p.Valid() && gpus >= 1
  {
    Load(p.arrivalRate, p.Estimate(gpus, p.constraints.maxThreadPercentage).ServiceSeconds()).Floor + 1
  }

  /** What a GPU count must do on its own: fit memory and meet the targets that queueing does not touch. */
  predicate FitsAlone(p: Problem, targets: LatencyTargets, gpus: nat)
    requires p.Valid() && gpus >= 1
  {
    var f := p.Estimate(gpus, p.constraints.maxThreadPercentage);
    && p.RequiredBytes(gpus) <= p.constraints.maxMemoryBytes
    && (targets.ttft.None? || f.prefill <= targets.ttft.value)
    && (targets.itl.None? || f.itl <= targets.itl.value)
  }

  /** No smaller GPU count reaches stability within the replicas, and for fewer GPUs in all. */
  ghost predicate NoCheaperLoad(p: Problem, targets: LatencyTargets, replicas: int, gpus: int)
    requires p.Valid()
  {
    forall g: nat :: 1 <= g < gpus && FitsAlone(p, targets, g) ==>
      LeastReplicas(p, g) > p.maxReplicas || LeastReplicas(p, g) * g >= replicas * gpus
  }

  lemma FeasibleIs(p: Problem, targets: LatencyTargets, replicas: nat, gpus: nat)
    requires p.Valid() && replicas >= 1 && gpus >= 1 && p.RequiredBytes(gpus) <= p.constraints.maxMemoryBytes
    ensures p.FeasibleAtMax(targets, replicas, gpus) ==>
              FitsAlone(p, targets, gpus) && LeastReplicas(p, gpus) <= replicas
    ensures targets.e2e.None? && FitsAlone(p, targets, gpus) && LeastReplicas(p, gpus) <= replicas ==>
              p.FeasibleAtMax(targets, replicas, gpus)
  {
    hide Problem.Estimate, Problem.RequiredBytes, Queued, EndToEnd;
    var f := p.Estimate(gpus, p.constraints.maxThreadPercentage);
    if p.StableAt(replicas, gpus, p.constraints.maxThreadPercentage) {
      SearchOptimality.QueuedFields(p.arrivalRate, replicas, f);
    }
  }

  /** Whatever the targets, loads alone can show that first fit is least. */
  lemma FewestByLoad(p: Problem, targets: LatencyTargets, replicas: int, gpus: int)
    requires p.Valid() && p.FirstFeasible(targets, replicas, gpus) && NoCheaperLoad(p, targets, replicas, gpus)
    ensures UsesFewestGPUs(p, targets, replicas, gpus)
  {
    forall r, g | p.Candidate(r, g) && p.FeasibleAtMax(targets, r, g)
      ensures r * g >= replicas * gpus
    {
      if r * g < replicas * gpus {
        CheaperIsWider(p, targets, replicas, gpus, r, g);
        FeasibleIs(p, targets, r, g);
        hide Problem.FeasibleAtMax, Problem.RequiredBytes, Problem.Valid, FitsAlone, LeastReplicas;
        ProductMono(LeastReplicas(p, g), r, g, g);
      }
    }
  }

  /** Without an end-to-end target that is exactly when it is. */
  lemma FewestIff(p: Problem, targets: LatencyTargets, replicas: int, gpus: int)
    requires p.Valid() && targets.e2e.None? && p.FirstFeasible(targets, replicas, gpus)
    ensures UsesFewestGPUs(p, targets, replicas, gpus) <==> NoCheaperLoad(p, targets, replicas, gpus)
  {
    if NoCheaperLoad(p, targets, replicas, gpus) {
      FewestByLoad(p, targets, replicas, gpus);
    } else {
      var g: nat :| 1 <= g < gpus && FitsAlone(p, targets, g)
        && LeastReplicas(p, g) <= p.maxReplicas && LeastReplicas(p, g) * g < replicas * gpus;
      var r := LeastReplicas(p, g);
      LoadNonNeg(p.arrivalRate, p.Estimate(g, p.constraints.maxThreadPercentage).ServiceSeconds());
      FeasibleIs(p, targets, r, g);
      assert p.Candidate(r, g);
    }
  }

  // ---------- inputs for which first fit is not least ----------

  /** Llama 3 8B on H200s, three a replica and two replicas at most; 34 requests a second of 12 output tokens. */
  const INPUTS := Inputs(
    LLAMA_3_8B, H200, Hint(1, 1, None, 0.0, 1.0),
    Some(Constraints(Some(2), Some(3), None, None)), Traffic(34.0, 0, 12, 0.0))

  /** The default targets. */
  const TARGETS := LatencyTargets(Some(5000.0), Some(1000.0), Some(50.0))

  /** Launch overhead, synchronisation between GPUs, and twelve token steps sped up by a nearly idle GPU. */
  function Seconds(gpus: nat): real
    requires gpus >= 1
  {
    (16.0 + (if gpus > 1 then 2.0 * gpus as real else 0.0) + 12.0 * TokenTime(gpus)) / 1000.0
  }

  function TokenTime(gpus: nat): real
    requires gpus >= 1
  {
    (10.0 / 3.0) / gpus as real * (0.5 + 0.5 / (61.0 * gpus as real))
  }

  lemma Built(p: Problem)
    requires p == INPUTS.Build()
    ensures INPUTS.Validated() && p.Valid() && BuiltFrom(p, INPUTS.spec)
    ensures p.arrivalRate == 34.0 && p.promptTokens == 0 && p.outputTokens == 12 && p.maxReplicas == 2
    ensures p.constraints == GPUResourceConstraints(1.0, 100.0, 1.0, 8589934592, 85899345920, 1073741824, 6, 3)
    ensures p.estimator.overprovisionSpeedUp == 0.5 && p.estimator.underprovisionContentionImpact == 0.08
  {
    INPUTS.BuildIsValid();
  }

  lemma Needs(p: Problem, gpus: nat)
    requires p == INPUTS.Build() && p.Valid() && 1 <= gpus <= 3
    ensures p.Requirements(gpus).threadOccupancy == 100.0 / (61.0 * gpus as real)
    ensures p.RequiredBytes(gpus) <= 85899345920
  {
    var e := p.estimator;
    assert e.PrefillTokens(0, 0.0) == 0.0;
    assert e.ThreadOccupancy(0.0, gpus) == 100.0 / (61.0 * gpus as real);
    assert e.MemoryUsage(0, 12, 0.0, gpus) <= 20.0;
  }

  lemma LatencyOf(l: LatencyEstimator, gpus: nat, impact: real)
    requires l == INPUTS.Latency() && 1 <= gpus <= 3 && impact == -(1.0 - 1.0 / (61.0 * gpus as real)) * 0.5
    ensures var f := l.EstimateLatency(0, 12, gpus, impact);
            f.ServiceSeconds() == Seconds(gpus) && f.itl == TokenTime(gpus) <= 50.0 && f.prefill <= 1000.0
  {
    assert l.BasePrefill(0, gpus) == 0.0;
    assert l.ReadTime(0, gpus) == (10.0 / 3.0) / gpus as real;
    assert l.kernelOverhead == 16.0;
  }

  lemma ServiceTimes(p: Problem, gpus: nat)
    requires p == INPUTS.Build() && p.Valid() && 1 <= gpus <= 3
    ensures var f := p.Estimate(gpus, 100.0);
            f.ServiceSeconds() == Seconds(gpus) && f.itl <= 50.0 && f.prefill <= 1000.0
  {
    Built(p);
    Needs(p, gpus);
    var y := 61.0 * gpus as real;
    SmallShare(y);
    var impact := -(1.0 - 1.0 / y) * 0.5;
    assert p.ImpactAt(100.0 / y, 100.0) == impact by {
      hide Inputs.Build;
      ImpactOfShare(p, 100.0 / y, 1.0 / y);
    }
    LatencyOf(p.latency, gpus, impact);
    hide Inputs.Build, Seconds, TokenTime, Problem.ImpactAt, Problem.Valid;
  }

  lemma SmallShare(y: real)
    requires y >= 61.0
    ensures (100.0 / y) / 100.0 == 1.0 / y && 0.0 <= 1.0 / y < 0.5
  {
    QuotientLe(1.0, 1.0, y, 61.0);
    QuotientLe(0.0, 1.0, 1.0, y);
  }

  lemma ImpactOfShare(p: Problem, occupancy: real, density: real)
    requires p.estimator.overprovisionSpeedUp == 0.5 && occupancy / 100.0 == density && 0.0 <= density < 0.5
    ensures p.ImpactAt(occupancy, 100.0) == -(1.0 - density) * 0.5
  {
  }

  /** The loads are 1.24, 1.02 and 0.98 servers on one, two and three GPUs. */
  lemma Loads(gpus: nat)
    requires 1 <= gpus <= 3
    ensures 0.0 < 34.0 * Seconds(gpus) < 2.0 && 34.0 * Seconds(gpus) != 1.0
    ensures 34.0 * Seconds(gpus) < 1.0 <==> gpus == 3
  {
  }

  /** On one server the wait stays below the service time; beyond one server's load it is negative. */
  lemma WaitsAreShort(t: real, replicas: nat)
    requires 0.0 < 34.0 * t < 2.0 && (if 34.0 * t < 1.0 then replicas == 1 else replicas == 2 && 34.0 * t > 1.0)
    ensures !EndToEnd(34.0, t, replicas).Exceeds(5000.0)
  {
    hide WaitSeconds;
    if replicas == 1 {
      SingleServer(34.0, t);
      MulMono2(0.0, t, 0.0, t);
      MulMono2(0.0, t * t, 0.0, 34.0 * t);
      MulMono(t, 1.0, t);
      MulMono2(t * t, 1.0, 34.0 * t, 1.0);
    } else {
      WaitSign(34.0, t, replicas);
    }
  }

  /** The verdict is stability and the end-to-end comparison. */
  lemma Verdict(p: Problem, replicas: nat, gpus: nat)
    requires p == INPUTS.Build() && p.Valid() && replicas >= 1 && 1 <= gpus <= 3
    ensures p.FeasibleAtMax(TARGETS, replicas, gpus) <==>
              34.0 * Seconds(gpus) < replicas as real && !EndToEnd(34.0, Seconds(gpus), replicas).Exceeds(5000.0)
  {
    Built(p);
    ServiceTimes(p, gpus);
    hide Problem.Estimate, Queued, EndToEnd, Seconds, Problem.Valid;
    if 34.0 * Seconds(gpus) < replicas as real {
      SearchOptimality.QueuedFields(34.0, replicas, p.Estimate(gpus, 100.0));
    }
  }

  lemma Candidates(p: Problem, replicas: int, gpus: int)
    requires p == INPUTS.Build() && p.Valid()
    ensures p.Candidate(replicas, gpus) <==> 1 <= replicas <= 2 && 1 <= gpus <= 3
  {
    Built(p);
    if 1 <= replicas <= 2 && 1 <= gpus <= 3 {
      Needs(p, gpus);
      BudgetNeverBinds(p, INPUTS.spec, replicas, gpus);
    }
  }

  /** With two replicas of up to three GPUs, three GPUs come third in the scan. */
  lemma ThirdOfSix(p: Problem, targets: LatencyTargets)
    requires p.Valid() && forall r, g :: p.Candidate(r, g) <==> 1 <= r <= 2 && 1 <= g <= 3
    requires !p.FeasibleAtMax(targets, 1, 1) && !p.FeasibleAtMax(targets, 1, 2) && p.FeasibleAtMax(targets, 1, 3)
    ensures p.FirstFeasible(targets, 1, 3)
    ensures p.FeasibleAtMax(targets, 2, 1) ==> !UsesFewestGPUs(p, targets, 1, 3)
  {
    hide Problem.Candidate, Problem.FeasibleAtMax, Problem.Valid;
    assert forall r, g :: p.Candidate(r, g) && Before(r, g, 1, 3) ==> (r, g) in {(1, 1), (1, 2)};
    assert p.Candidate(2, 1);
  }

  lemma Verdicts(p: Problem)
    requires p == INPUTS.Build() && p.Valid()
    ensures !p.FeasibleAtMax(TARGETS, 1, 1) && !p.FeasibleAtMax(TARGETS, 1, 2)
    ensures p.FeasibleAtMax(TARGETS, 1, 3) && p.FeasibleAtMax(TARGETS, 2, 1)
  {
    Loads(1);
    Loads(2);
    Loads(3);
    Verdict(p, 1, 1);
    Verdict(p, 1, 2);
    Verdict(p, 1, 3);
    Verdict(p, 2, 1);
    hide Problem.FeasibleAtMax, Problem.Valid, Seconds, EndToEnd, Inputs.Build;
    WaitsAreShort(Seconds(3), 1);
    WaitsAreShort(Seconds(1), 2);
  }

  lemma AllCandidates(p: Problem)
    requires p == INPUTS.Build() && p.Valid()
    ensures forall r, g :: p.Candidate(r, g) <==> 1 <= r <= 2 && 1 <= g <= 3
  {
    forall r, g
      ensures p.Candidate(r, g) <==> 1 <= r <= 2 && 1 <= g <= 3
    {
      Candidates(p, r, g);
    }
  }

  lemma Outcome(p: Problem)
    requires p == INPUTS.Build() && p.Valid()
    ensures p.FirstFeasible(TARGETS, 1, 3)
    ensures p.Candidate(2, 1) && p.FeasibleAtMax(TARGETS, 2, 1)
    ensures !UsesFewestGPUs(p, TARGETS, 1, 3)
  {
    hide Problem.Candidate, Problem.FeasibleAtMax, Problem.Valid, Inputs.Build, Problem.FirstFeasible, UsesFewestGPUs;
    AllCandidates(p);
    Verdicts(p);
    ThirdOfSix(p, TARGETS);
  }

  /** On validated inputs the search answers three GPUs where two are enough. */
  lemma FirstFitUsesMoreGPUs()
    ensures INPUTS.Validated() && INPUTS.Build().Valid()
    ensures var p := INPUTS.Build();
            && p.FirstFeasible(TARGETS, 1, 3)
            && p.Candidate(2, 1) && p.FeasibleAtMax(TARGETS, 2, 1)
            && !UsesFewestGPUs(p, TARGETS, 1, 3)
  {
    hide Problem.Candidate, Problem.FeasibleAtMax, Problem.FirstFeasible, UsesFewestGPUs;
    Built(INPUTS.Build());
    Outcome(INPUTS.Build());
  }
}
