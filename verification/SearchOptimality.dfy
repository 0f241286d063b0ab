/**
 What the greedy search of ResourceOptimizer finds, measured against an exhaustive one: the chain
 allocation impact, latency, service time, queue wait, end-to-end latency is monotone along the scan
 as long as the wait formula stays on its sound side.
 */
module SearchOptimality {
  import opened RealMath
  import opened Wrappers
  import opened QueueAnalyzer
  import opened ResourceOptimizer

  // ---------- the monotone chain ----------

  /** Speedup below half density, contention above 0.8: impact never drops as density rises. */
  lemma DensityImpactGrows(a: real, b: real, speedUp: real, contention: real)
    requires 0.0 <= a <= b <= 1.0 && speedUp >= 0.0 && contention >= 0.0
    ensures DensityImpact(a, speedUp, contention) <= DensityImpact(b, speedUp, contention)
  {
    MulMono(1.0 - b, 1.0 - a, speedUp);
    MulMono(a - 0.8, b - 0.8, contention);
    MulMono(0.0, 1.0 - a, speedUp);
    if b > 0.8 {
      MulMono(0.0, b - 0.8, contention);
    }
  }

  /** Below half density the GPU speeds up, above 0.8 it slows down, and between it does neither. */
  lemma ImpactSign(density: real, speedUp: real, contention: real)
    requires 0.0 <= density <= 1.0 && speedUp > 0.0 && contention > 0.0
    ensures var impact := DensityImpact(density, speedUp, contention);
            && (impact < 0.0 <==> density < 0.5) && (impact > 0.0 <==> density > 0.8)
            && -speedUp <= impact <= contention * 0.2
    ensures DensityImpact(0.0, speedUp, contention) == -speedUp
    ensures DensityImpact(1.0, speedUp, contention) == contention * 0.2
  {
    DensityImpactGrows(0.0, density, speedUp, contention);
    DensityImpactGrows(density, 1.0, speedUp, contention);
    if density < 0.5 {
      assert (1.0 - density) * speedUp > 0.0;
    } else if density > 0.8 {
      assert (density - 0.8) * contention > 0.0;
    }
  }

  /** Beyond full density the penalty does not grow, and without compute density counts as full. */
  lemma ImpactBounded(p: Problem, occupancy: real, compute: real)
    requires p.Valid() && 0.0 < occupancy && 0.0 <= compute <= occupancy
    ensures p.ImpactAt(occupancy, compute) == p.estimator.underprovisionContentionImpact * 0.2
  {
    if compute > 0.0 {
      QuotientLe(1.0, occupancy, 1.0, compute);
    }
  }

  /** Down to the occupancy itself, less compute never lowers the allocation impact. */
  lemma ImpactGrows(p: Problem, occupancy: real, more: real, less: real)
    requires p.Valid() && occupancy >= 0.0 && 0.0 <= less <= more && (less > 0.0 || occupancy == 0.0)
    ensures p.ImpactAt(occupancy, more) <= p.ImpactAt(occupancy, less)
  {
    if less > 0.0 {
      DivAnti(occupancy, less, more);
      var dense, sparse := occupancy / less, occupancy / more;
      DensityImpactGrows(if sparse > 1.0 then 1.0 else sparse, if dense > 1.0 then 1.0 else dense,
                         p.estimator.overprovisionSpeedUp, p.estimator.underprovisionContentionImpact);
    }
  }

  /** Less compute means no smaller inter-token latency, prefill and service time. */
  lemma EstimateGrows(p: Problem, gpus: nat, more: real, less: real)
    requires p.Valid() && gpus >= 1 && p.Requirements(gpus).threadOccupancy <= less <= more
    ensures var f, s := p.Estimate(gpus, more), p.Estimate(gpus, less);
            f.itl <= s.itl && f.prefill <= s.prefill && 0.0 <= f.ServiceSeconds() <= s.ServiceSeconds()
  {
    var occupancy := p.Requirements(gpus).threadOccupancy;
    p.estimator.OccupancyNonNegative(p.estimator.PrefillTokens(p.promptTokens, p.prefixCacheHitRate), gpus);
    ImpactGrows(p, occupancy, more, less);
    p.latency.LatencyGrowsWithImpact(p.promptTokens, p.outputTokens, gpus,
                                     p.ImpactAt(occupancy, more), p.ImpactAt(occupancy, less));
  }

  /**
   Where the wait formula is sound along a whole scan: one replica, no end-to-end target, or less
   than one server's worth of load even at the lowest compute of the grid.
   */
  predicate SoundScan(p: Problem, targets: LatencyTargets, replicas: nat, gpus: nat)
    requires p.Valid() && gpus >= 1
  {
    targets.e2e.None? || SoundLoad(p, replicas, gpus)
  }

  predicate SoundLoad(p: Problem, replicas: nat, gpus: nat)
    requires p.Valid() && gpus >= 1
  {
    replicas == 1 || Load(p.arrivalRate, p.Estimate(gpus, p.Grid(p.LastIndex(gpus))).ServiceSeconds()) < 1.0
  }

  lemma GridAntitone(p: Problem, gpus: nat, i: nat, j: nat)
    requires p.Valid() && gpus >= 1 && i <= j <= p.LastIndex(gpus)
    ensures p.Grid(j) <= p.Grid(i)
    ensures j >= 1 ==> p.Grid(j) >= p.ComputeFloor(gpus)
  {
    assert p.Grid(j) <= p.Grid(i) by {
      hide Problem.LastIndex;
      MulMono(i as real, j as real, p.constraints.stepThreadPercentage);
    }
    assert j >= 1 ==> p.Grid(j) >= p.ComputeFloor(gpus) by {
      hide Problem.LastIndex, Problem.Grid, Problem.ComputeFloor;
      p.GridIndices(gpus, j);
    }
    hide *;
  }

  lemma QueuedFields(a: real, servers: nat, f: LatencyFigures)
    requires a >= 0.0 && servers >= 1 && f.ServiceTime() >= 0.0 && Stable(a, f.ServiceSeconds(), servers)
    ensures var q := Queued(a, servers, f);
            q.itl == f.itl && q.ttft == f.prefill && q.e2e == EndToEnd(a, f.ServiceSeconds(), servers)
  {
  }

  lemma QueuedGrows(a: real, servers: nat, f: LatencyFigures, s: LatencyFigures, targets: LatencyTargets)
    requires a >= 0.0 && servers >= 1
    requires f.itl <= s.itl && f.prefill <= s.prefill && 0.0 <= f.ServiceSeconds() <= s.ServiceSeconds()
    requires servers == 1 || targets.e2e.None? || Load(a, s.ServiceSeconds()) < 1.0
    requires Stable(a, s.ServiceSeconds(), servers) && targets.MeetsAllTargets(Queued(a, servers, s))
    ensures Stable(a, f.ServiceSeconds(), servers) && targets.MeetsAllTargets(Queued(a, servers, f))
  {
    LoadGrows(a, f.ServiceSeconds(), s.ServiceSeconds());
    QueuedFields(a, servers, f);
    QueuedFields(a, servers, s);
    hide Queued, EndToEnd;
    if targets.e2e.Some? {
      WaitMonotone(a, f.ServiceSeconds(), a, s.ServiceSeconds(), servers);
    }
  }

  /** On a sound scan a pass at some compute is a pass at every higher one. */
  lemma PassesUpward(p: Problem, targets: LatencyTargets, replicas: nat, gpus: nat, i: nat, j: nat)
    requires p.Valid() && replicas >= 1 && gpus >= 1 && i <= j <= p.LastIndex(gpus)
    requires SoundScan(p, targets, replicas, gpus)
    requires p.Passes(targets, replicas, gpus, p.Grid(j))
    ensures p.Passes(targets, replicas, gpus, p.Grid(i))
  {
    if i < j {
      var last := p.LastIndex(gpus);
      GridAntitone(p, gpus, i, j);
      GridAntitone(p, gpus, j, last);
      hide Problem.LastIndex, Problem.ComputeFloor, Problem.Grid, Problem.Estimate, Queued;
      EstimateGrows(p, gpus, p.Grid(i), p.Grid(j));
      EstimateGrows(p, gpus, p.Grid(j), p.Grid(last));
      LoadGrows(p.arrivalRate, p.Estimate(gpus, p.Grid(j)).ServiceSeconds(),
                p.Estimate(gpus, p.Grid(last)).ServiceSeconds());
      QueuedGrows(p.arrivalRate, replicas, p.Estimate(gpus, p.Grid(i)), p.Estimate(gpus, p.Grid(j)), targets);
    }
  }

  lemma LoadGrows(a: real, s: real, t: real)
    requires a >= 0.0 && s <= t
    ensures Load(a, s) <= Load(a, t)
  {
  }

  // ---------- greedy against exhaustive ----------

  /** The exhaustive squeeze: the largest passing index up to i, looking at every one of them. */
  function BruteIndex(p: Problem, targets: LatencyTargets, replicas: nat, gpus: nat, i: nat): (n: nat)
    requires p.Valid() && replicas >= 1 && gpus >= 1
    ensures n <= i
  {
    if i == 0 || p.Passes(targets, replicas, gpus, p.Grid(i)) then i
    else BruteIndex(p, targets, replicas, gpus, i - 1)
  }

  lemma {:induction false} BruteIndexIsLargest(p: Problem, targets: LatencyTargets, replicas: nat, gpus: nat,
                                               i: nat, k: nat)
    requires p.Valid() && replicas >= 1 && gpus >= 1 && k <= i
    requires p.Passes(targets, replicas, gpus, p.Grid(k))
    ensures k <= BruteIndex(p, targets, replicas, gpus, i)
  {
    if i > 0 && !p.Passes(targets, replicas, gpus, p.Grid(i)) {
      BruteIndexIsLargest(p, targets, replicas, gpus, i - 1, k);
    }
  }

  lemma {:induction false} GreedyStopsAtFailure(p: Problem, targets: LatencyTargets, replicas: nat, gpus: nat, i: nat)
    requires p.Valid() && replicas >= 1 && gpus >= 1 && i <= p.LastIndex(gpus)
    requires p.Passes(targets, replicas, gpus, p.Grid(i))
    ensures var n := p.GreedyIndex(targets, replicas, gpus, i);
            && p.Passes(targets, replicas, gpus, p.Grid(n))
            && (n < p.LastIndex(gpus) ==> !p.Passes(targets, replicas, gpus, p.Grid(n + 1)))
    decreases p.LastIndex(gpus) - i
  {
    if i < p.LastIndex(gpus) && p.Passes(targets, replicas, gpus, p.Grid(i + 1)) {
      GreedyStopsAtFailure(p, targets, replicas, gpus, i + 1);
    }
  }

  /** End-to-end latency after i reductions, as far as the search computes it. */
  function EndToEndAt(p: Problem, replicas: nat, gpus: nat, i: nat): Extended
    requires p.Valid() && gpus >= 1
  {
    var f := p.Estimate(gpus, p.Grid(i));
    EndToEnd(p.arrivalRate, f.ServiceSeconds(), replicas)
  }

  /** No stable grid value is slower end to end than both the first one and some stable later one. */
  ghost predicate NoPeak(p: Problem, replicas: nat, gpus: nat)
    requires p.Valid() && gpus >= 1
  {
    forall i: nat, j: nat :: i < j <= p.LastIndex(gpus) && p.StableAt(replicas, gpus, p.Grid(j)) ==>
      !Peak(p, replicas, gpus, i, j)
  }

  predicate Peak(p: Problem, replicas: nat, gpus: nat, i: nat, j: nat)
    requires p.Valid() && gpus >= 1
  {
    && !EndToEndAt(p, replicas, gpus, i).AtMost(EndToEndAt(p, replicas, gpus, 0))
    && !EndToEndAt(p, replicas, gpus, i).AtMost(EndToEndAt(p, replicas, gpus, j))
  }

  /** Along the grid, up to a stable value, everything but the end-to-end latency only gets better. */
  lemma EarlierIsNoWorse(p: Problem, replicas: nat, gpus: nat, i: nat, j: nat)
    requires p.Valid() && replicas >= 1 && gpus >= 1 && i <= j <= p.LastIndex(gpus)
    requires p.StableAt(replicas, gpus, p.Grid(j))
    ensures p.StableAt(replicas, gpus, p.Grid(i))
    ensures var f, s := p.Estimate(gpus, p.Grid(i)), p.Estimate(gpus, p.Grid(j));
            f.itl <= s.itl && f.prefill <= s.prefill && 0.0 <= f.ServiceSeconds() <= s.ServiceSeconds()
  {
    if i < j {
      GridAntitone(p, gpus, i, j);
      hide Problem.LastIndex, Problem.Grid, Problem.Estimate;
      EstimateGrows(p, gpus, p.Grid(i), p.Grid(j));
      LoadGrows(p.arrivalRate, p.Estimate(gpus, p.Grid(i)).ServiceSeconds(),
                p.Estimate(gpus, p.Grid(j)).ServiceSeconds());
    }
  }

  /** The verdict in terms of the figures before queueing. */
  lemma PassesIs(p: Problem, targets: LatencyTargets, replicas: nat, gpus: nat, i: nat)
    requires p.Valid() && replicas >= 1 && gpus >= 1
    ensures var f := p.Estimate(gpus, p.Grid(i));
            p.Passes(targets, replicas, gpus, p.Grid(i)) <==>
              && p.StableAt(replicas, gpus, p.Grid(i))
              && (targets.e2e.None? || !EndToEndAt(p, replicas, gpus, i).Exceeds(targets.e2e.value))
              && (targets.ttft.None? || f.prefill <= targets.ttft.value)
              && (targets.itl.None? || f.itl <= targets.itl.value)
  {
    hide Problem.Grid, Problem.Estimate, Queued, EndToEnd;
    var f := p.Estimate(gpus, p.Grid(i));
    if p.StableAt(replicas, gpus, p.Grid(i)) {
      QueuedFields(p.arrivalRate, replicas, f);
    }
  }

  /** Without a peak, everything before a grid value that passes, as full compute does, passes too. */
  lemma NoFailureBetween(p: Problem, targets: LatencyTargets, replicas: nat, gpus: nat, i: nat, j: nat)
    requires p.Valid() && replicas >= 1 && gpus >= 1 && i < j <= p.LastIndex(gpus)
    requires NoPeak(p, replicas, gpus) || targets.e2e.None?
    requires p.Passes(targets, replicas, gpus, p.Grid(0)) && p.Passes(targets, replicas, gpus, p.Grid(j))
    ensures p.Passes(targets, replicas, gpus, p.Grid(i))
  {
    PassesIs(p, targets, replicas, gpus, 0);
    PassesIs(p, targets, replicas, gpus, i);
    PassesIs(p, targets, replicas, gpus, j);
    EarlierIsNoWorse(p, replicas, gpus, i, j);
    hide Problem.Passes, Problem.Estimate, Problem.StableAt, EndToEndAt, Problem.LastIndex, Problem.Grid, Problem.Valid;
    assert targets.e2e.Some? ==> !Peak(p, replicas, gpus, i, j);
  }

  /** Without a peak the scan never stops before a grid value that passes. */
  lemma NoPeakSuffices(p: Problem, targets: LatencyTargets, replicas: nat, gpus: nat)
    requires p.Valid() && replicas >= 1 && gpus >= 1
    requires NoPeak(p, replicas, gpus) || targets.e2e.None?
    requires p.FeasibleAtMax(targets, replicas, gpus)
    ensures p.GreedyIndex(targets, replicas, gpus, 0) == BruteIndex(p, targets, replicas, gpus, p.LastIndex(gpus))
  {
    var last := p.LastIndex(gpus);
    var n, b := p.GreedyIndex(targets, replicas, gpus, 0), BruteIndex(p, targets, replicas, gpus, last);
    assert p.Grid(0) == p.constraints.maxThreadPercentage;
    GreedyStopsAtFailure(p, targets, replicas, gpus, 0);
    BruteIndexIsLargest(p, targets, replicas, gpus, last, n);
    if n < b {
      BruteIndexPasses(p, targets, replicas, gpus, last);
      if n + 1 < b {
        NoFailureBetween(p, targets, replicas, gpus, n + 1, b);
      }
    }
  }

  /** At a peak, the larger of the two latencies beside it is a target that stops the scan too early. */
  lemma PeakMisleads(p: Problem, replicas: nat, gpus: nat, i: nat, j: nat) returns (targets: LatencyTargets)
    requires p.Valid() && replicas >= 1 && gpus >= 1 && i < j <= p.LastIndex(gpus)
    requires p.StableAt(replicas, gpus, p.Grid(j)) && Peak(p, replicas, gpus, i, j)
    ensures p.FeasibleAtMax(targets, replicas, gpus)
    ensures p.GreedyIndex(targets, replicas, gpus, 0) < i
    ensures BruteIndex(p, targets, replicas, gpus, p.LastIndex(gpus)) >= j
  {
    var e0, ej := EndToEndAt(p, replicas, gpus, 0), EndToEndAt(p, replicas, gpus, j);
    var bound := Max(e0.v, ej.v);
    targets := LatencyTargets(Some(bound), None, None);
    assert p.Grid(0) == p.constraints.maxThreadPercentage;
    EarlierIsNoWorse(p, replicas, gpus, 0, j);
    PassesIs(p, targets, replicas, gpus, 0);
    PassesIs(p, targets, replicas, gpus, i);
    PassesIs(p, targets, replicas, gpus, j);
    GreedyStopsBefore(p, targets, replicas, gpus, 0, i);
    BruteIndexIsLargest(p, targets, replicas, gpus, p.LastIndex(gpus), j);
  }

  lemma {:induction false} GreedyStopsBefore(p: Problem, targets: LatencyTargets, replicas: nat, gpus: nat,
                                             from: nat, i: nat)
    requires p.Valid() && replicas >= 1 && gpus >= 1 && from < i <= p.LastIndex(gpus)
    requires !p.Passes(targets, replicas, gpus, p.Grid(i))
    ensures p.GreedyIndex(targets, replicas, gpus, from) < i
    decreases i - from
  {
    if from + 1 < i {
      GreedyStopsBefore(p, targets, replicas, gpus, from + 1, i);
    }
  }

  /**
   The linear squeeze that stops at the first failure returns what the exhaustive one returns, whatever
   the targets that full compute meets, exactly when the end-to-end latencies of the grid have no peak.
   */
  lemma SqueezeOptimalIff(p: Problem, replicas: nat, gpus: nat)
    requires p.Valid() && replicas >= 1 && gpus >= 1
    ensures NoPeak(p, replicas, gpus) <==>
              forall targets: LatencyTargets :: p.FeasibleAtMax(targets, replicas, gpus) ==>
                p.GreedyIndex(targets, replicas, gpus, 0) == BruteIndex(p, targets, replicas, gpus, p.LastIndex(gpus))
  {
    hide Peak, BruteIndex, Problem.FeasibleAtMax, Problem.GreedyIndex, Problem.LastIndex, Problem.StableAt;
    hide Problem.Valid;
    if NoPeak(p, replicas, gpus) {
      forall targets: LatencyTargets | p.FeasibleAtMax(targets, replicas, gpus)
        ensures p.GreedyIndex(targets, replicas, gpus, 0) == BruteIndex(p, targets, replicas, gpus, p.LastIndex(gpus))
      {
        NoPeakSuffices(p, targets, replicas, gpus);
      }
    } else {
      var i: nat, j: nat :| && i < j <= p.LastIndex(gpus) && p.StableAt(replicas, gpus, p.Grid(j))
                            && Peak(p, replicas, gpus, i, j);
      var targets := PeakMisleads(p, replicas, gpus, i, j);
    }
  }

  /** One replica, or less than one server's load at the lowest compute: the latency only grows, so no peak. */
  lemma SoundLoadHasNoPeak(p: Problem, replicas: nat, gpus: nat)
    requires p.Valid() && replicas >= 1 && gpus >= 1 && SoundLoad(p, replicas, gpus)
    ensures NoPeak(p, replicas, gpus)
  {
    var last := p.LastIndex(gpus);
    forall i: nat, j: nat | i < j <= last && p.StableAt(replicas, gpus, p.Grid(j))
      ensures !Peak(p, replicas, gpus, i, j)
    {
      EarlierIsNoWorse(p, replicas, gpus, i, j);
      LoadUpTo(p, replicas, gpus, j);
      hide Problem.LastIndex, Problem.Estimate, Problem.Grid, EndToEnd;
      WaitMonotone(p.arrivalRate, p.Estimate(gpus, p.Grid(i)).ServiceSeconds(),
                   p.arrivalRate, p.Estimate(gpus, p.Grid(j)).ServiceSeconds(), replicas);
    }
  }

  lemma LoadUpTo(p: Problem, replicas: nat, gpus: nat, j: nat)
    requires p.Valid() && replicas >= 1 && gpus >= 1 && j <= p.LastIndex(gpus)
    ensures Load(p.arrivalRate, p.Estimate(gpus, p.Grid(j)).ServiceSeconds())
         <= Load(p.arrivalRate, p.Estimate(gpus, p.Grid(p.LastIndex(gpus))).ServiceSeconds())
  {
    var last := p.LastIndex(gpus);
    if j < last {
      GridAntitone(p, gpus, j, last);
      hide Problem.LastIndex, Problem.Estimate, Problem.Grid;
      EstimateGrows(p, gpus, p.Grid(j), p.Grid(last));
      LoadGrows(p.arrivalRate, p.Estimate(gpus, p.Grid(j)).ServiceSeconds(),
                p.Estimate(gpus, p.Grid(last)).ServiceSeconds());
    }
  }

  /** The easy-to-check case: on a sound scan the squeeze is optimal. */
  lemma SqueezeIsOptimal(p: Problem, targets: LatencyTargets, replicas: nat, gpus: nat)
    requires p.Valid() && replicas >= 1 && gpus >= 1
    requires SoundScan(p, targets, replicas, gpus)
    requires p.FeasibleAtMax(targets, replicas, gpus)
    ensures p.GreedyIndex(targets, replicas, gpus, 0) == BruteIndex(p, targets, replicas, gpus, p.LastIndex(gpus))
  {
    if targets.e2e.Some? {
      SoundLoadHasNoPeak(p, replicas, gpus);
    }
    NoPeakSuffices(p, targets, replicas, gpus);
  }

  lemma {:induction false} BruteIndexPasses(p: Problem, targets: LatencyTargets, replicas: nat, gpus: nat, i: nat)
    requires p.Valid() && replicas >= 1 && gpus >= 1
    ensures var n := BruteIndex(p, targets, replicas, gpus, i);
            n > 0 ==> p.Passes(targets, replicas, gpus, p.Grid(n))
  {
    if i > 0 && !p.Passes(targets, replicas, gpus, p.Grid(i)) {
      BruteIndexPasses(p, targets, replicas, gpus, i - 1);
    }
  }

  /**
   The whole search against brute force over every (replicas, GPUs, grid value): when the scans are
   sound, nothing that passes comes before the result, and nothing at its replicas and GPUs is cheaper.
   */
  lemma SearchIsBruteForce(p: Problem, targets: LatencyTargets, replicas: nat, gpus: nat, r: nat, g: nat, i: nat)
    requires p.Valid() && p.FirstFeasible(targets, replicas, gpus)
    requires p.Candidate(r, g) && p.OnGrid(g, i) && p.Passes(targets, r, g, p.Grid(i))
    requires SoundScan(p, targets, r, g)
    ensures !Before(r, g, replicas, gpus)
    ensures (r, g) == (replicas, gpus) ==> p.Grid(i) >= p.Squeezed(targets, replicas, gpus).requestedCompute
  {
    p.GridIndices(g, i);
    PassesUpward(p, targets, r, g, 0, i);
    assert p.Grid(0) == p.constraints.maxThreadPercentage;
    if (r, g) == (replicas, gpus) {
      SqueezeIsOptimal(p, targets, r, g);
      BruteIndexIsLargest(p, targets, r, g, p.LastIndex(g), i);
      GridAntitone(p, g, i, p.GreedyIndex(targets, r, g, 0));
    }
  }

  // ---------- memory ----------

  function WantedBytes(p: Problem, gpus: nat): int
    requires p.Valid() && gpus >= 1
  {
    if p.RequiredBytes(gpus) >= p.constraints.minMemoryBytes then p.RequiredBytes(gpus)
    else p.constraints.minMemoryBytes
  }

  /**
   The aligned memory is the least min + k*step that covers the requirement; it exceeds the maximum
   by less than a step, and not at all when the maximum lies on the same grid.
   */
  lemma AlignedMemory(p: Problem, gpus: nat)
    requires p.Valid() && gpus >= 1
    ensures WantedBytes(p, gpus) <= p.AlignedBytes(gpus)
    ensures exists k: nat :: p.AlignedBytes(gpus) == p.MemoryGrid(k)
    ensures forall k: nat :: p.MemoryGrid(k) >= WantedBytes(p, gpus) ==> p.AlignedBytes(gpus) <= p.MemoryGrid(k)
    ensures WantedBytes(p, gpus) <= p.constraints.maxMemoryBytes ==>
              p.AlignedBytes(gpus) < p.constraints.maxMemoryBytes + p.constraints.stepMemoryBytes
  {
    var gap, step := WantedBytes(p, gpus) - p.constraints.minMemoryBytes, p.constraints.stepMemoryBytes;
    var steps := Ceil(gap as real / step as real);
    CeilingSteps(gap, step);
    assert p.AlignedBytes(gpus) == p.MemoryGrid(steps);
    hide Problem.AlignedBytes, Problem.RequiredBytes, Ceil;
    forall k: nat | p.MemoryGrid(k) >= WantedBytes(p, gpus)
      ensures p.AlignedBytes(gpus) <= p.MemoryGrid(k)
    {
      LeastMultiple(steps, k, step, gap);
    }
  }

  lemma CeilingSteps(gap: int, step: int)
    requires gap >= 0 && step > 0
    ensures var k := Ceil(gap as real / step as real);
            k >= 0 && gap <= k * step < gap + step
  {
    hide Ceil, Times;
    var q := gap as real / step as real;
    var k := Ceil(q);
    DivMono(0.0, gap as real, step as real);
    QuotientTimes(gap as real, step as real);
    ProductAsReal(k, step);
    RoundedUp(q, k as real, step as real);
    Between(gap, k * step, step);
  }

  function Times(x: real, y: real): real { x * y }

  lemma RoundedUp(q: real, k: real, step: real)
    requires k - 1.0 < q <= k && step > 0.0
    ensures Times(q, step) <= Times(k, step) < Times(q, step) + step
  {
    hide *;
    TimesNonNegative(k - q, step);
    TimesDistributes(k, q, step);
    TimesNonNegative(q - (k - 1.0), step);
    TimesDistributes(q, k - 1.0, step);
    TimesDistributes(k, 1.0, step);
  }

  lemma TimesNonNegative(x: real, y: real)
    requires x >= 0.0 && y > 0.0
    ensures Times(x, y) >= 0.0 && Times(1.0, y) == y
    ensures x > 0.0 ==> Times(x, y) > 0.0
  {
  }

  lemma TimesDistributes(x: real, y: real, z: real)
    ensures Times(x - y, z) == Times(x, z) - Times(y, z)
  {
  }

  lemma QuotientTimes(x: real, y: real)
    requires y > 0.0
    ensures Times(x / y, y) == x
  {
  }

  lemma ProductAsReal(a: int, b: int)
    ensures Times(a as real, b as real) == (a * b) as real
  {
  }

  lemma Between(low: int, n: int, width: int)
    requires low as real <= n as real < low as real + width as real
    ensures low <= n < low + width
  {
  }

  lemma LeastMultiple(steps: int, k: int, step: int, gap: int)
    requires step > 0 && steps * step < gap + step && k * step >= gap
    ensures steps * step <= k * step
  {
    if k < steps {
      assert (k + 1) * step == k * step + step;
      ProductMono(k + 1, steps, step, step);
    }
  }
}
