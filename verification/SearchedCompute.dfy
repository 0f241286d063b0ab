/**
 What the decision loop makes of the answers of the search: their memory is a whole number of bytes, but
 their compute is a whole percentage only as far as the constraints of the spec are.
 */
module SearchedCompute {
  import opened Wrappers
  import opened RealMath
  import opened ResourceOptimizer
  import opened SpecConstraints
  import opened OptimizerInputs
  import opened DecisionLoop
  import opened SearchAnswers

  /** scaling_action.go:179-184: the part of an answer that becomes the desired configuration. */
  function Desired(c: OptimalConfiguration): DeviceRequests.ResourceConfiguration {
    DeviceRequests.ResourceConfiguration(c.replicas, c.gpusPerReplica, c.requestedCompute, c.requestedMemoryGB)
  }

  /** Whatever the search answers, for maximum compute of zero or more, is in the range of the decision loop. */
  lemma AnswerIsValid(p: Problem, targets: LatencyTargets, c: OptimalConfiguration, job: Job)
    requires p.Valid() && p.prefixCacheHitRate <= 1.0 && p.constraints.maxThreadPercentage >= 0.0
    requires p.Answers(targets, c) && job.desired == Desired(c)
    ensures job.Valid() && job.desired.replicas >= 1
  {
    var i, bytes := AnswerOnGrid(p, targets, c);
    p.estimator.OccupancyNonNegative(p.estimator.PrefillTokens(p.promptTokens, p.prefixCacheHitRate), c.gpusPerReplica);
    RequiredBytesNonNegative(p, c.gpusPerReplica);
    assert c.requestedMemoryGB * DeviceRequests.GIB == bytes as real;
    hide Problem.Answers, Problem.RequiredBytes;
  }

  lemma RequiredBytesNonNegative(p: Problem, gpus: nat)
    requires p.Valid() && p.prefixCacheHitRate <= 1.0 && gpus >= 1
    ensures p.RequiredBytes(gpus) >= 0
  {
    p.estimator.MemoryNonNegative(p.promptTokens, p.outputTokens, p.prefixCacheHitRate, gpus);
  }

  /** For a whole-number step every answer has the fraction of the maximum. */
  lemma AnswerFraction(p: Problem, targets: LatencyTargets, c: OptimalConfiguration)
    requires p.Valid() && p.Answers(targets, c)
    requires Fraction(p.constraints.stepThreadPercentage) == 0.0
    ensures Fraction(c.requestedCompute) == Fraction(p.constraints.maxThreadPercentage)
  {
    var i, bytes := AnswerOnGrid(p, targets, c);
    hide Fraction, Problem.Answers, Problem.Valid, Problem.Grid;
    GridKeepsFraction(p, i);
  }

  /** So then the workload is written at most twice in every run exactly when that fraction is at most 0.01. */
  lemma WholeStepSettlesIff(inputs: Inputs, targets: LatencyTargets, c: OptimalConfiguration, job: Job)
    requires inputs.Validated() && inputs.Build().Valid() && inputs.Build().Answers(targets, c)
    requires job.desired == Desired(c) && job.limits == UNLIMITED
    requires ExtractGPUConstraints(inputs.spec).maxThreadPercentage >= 0.0
    requires Fraction(ExtractGPUConstraints(inputs.spec).stepThreadPercentage) == 0.0
    ensures Fraction(ExtractGPUConstraints(inputs.spec).maxThreadPercentage) <= ScalingDecision.THRESHOLD <==>
              forall s: LoopState, rounds: seq<RoundInput> :: DeviceRequests.ReadsFirst(s.requests, job.deviceClass)
                ==> job.Writes(s, rounds) <= 2 + job.Unrecorded(rounds)
  {
    inputs.BuildIsValid();
    var p := inputs.Build();
    hide Inputs.Validated, Inputs.Build, Problem.Valid, Problem.Answers, ExtractGPUConstraints, Job.Valid, Job.Writes;
    AnswerFraction(p, targets, c);
    AnswerIsValid(p, targets, c, job);
    job.ComputeKeptIff();
  }

  lemma GridKeepsFraction(p: Problem, i: nat)
    requires Fraction(p.constraints.stepThreadPercentage) == 0.0
    ensures Fraction(p.Grid(i)) == Fraction(p.Grid(0)) == Fraction(p.constraints.maxThreadPercentage)
  {
    var max, step := p.constraints.maxThreadPercentage, p.constraints.stepThreadPercentage;
    WholeProduct(i, step);
    ShiftKeepsFraction(max, i * step.Floor);
    assert p.Grid(i) == max - (i * step.Floor) as real;
    assert p.Grid(0) == max;
    hide *;
  }

  lemma WholeProduct(i: int, x: real)
    requires Fraction(x) == 0.0
    ensures (i * x.Floor) as real == i as real * x
  {
  }

  lemma ShiftKeepsFraction(x: real, n: int)
    ensures Fraction(x - n as real) == Fraction(x)
  {
    assert (x - n as real).Floor == x.Floor - n;
  }

  /** Llama 3 8B on an H200 with everything left to its default but a maximum compute of 99.5 percent. */
  const INPUTS := Inputs(
    LLAMA_3_8B, H200, Hint(1, 1, None, 0.0, 1.0),
    Some(Constraints(None, None, Some(CapacityRange(None, Some(99.5), None)), None)),
    Traffic(0.7, 3, 600, 0.0))

  lemma FitsOnOneGPU(p: Problem)
    requires p == INPUTS.Build() && p.Valid()
    ensures p.Candidate(1, 1)
  {
    assert p.estimator.PrefillTokens(3, 0.0) == 3.0;
    assert p.estimator.MemoryUsage(3, 600, 3.0, 1) <= 20.0;
  }

  /** Then the search answers, and whatever it answers is written again in every timely round, for ever. */
  lemma HalfPercentWritesForever()
    ensures INPUTS.Validated() && INPUTS.Build().Valid() && !INPUTS.Build().NoCandidate()
    ensures forall targets: LatencyTargets, c: OptimalConfiguration, job: Job, s: LoopState, rounds: seq<RoundInput> ::
              && INPUTS.Build().Answers(targets, c) && job.desired == Desired(c) && job.limits == UNLIMITED
              && job.Settled(s) && DeviceRequests.ReadsFirst(s.requests, job.deviceClass)
              && (forall i :: 0 <= i < |rounds| ==> rounds[i].Timely()) ==>
                job.Writes(s, rounds) == |rounds|
  {
    INPUTS.BuildIsValid();
    FitsOnOneGPU(INPUTS.Build());
    forall targets: LatencyTargets, c: OptimalConfiguration, job: Job, s: LoopState, rounds: seq<RoundInput> |
      && INPUTS.Build().Answers(targets, c) && job.desired == Desired(c) && job.limits == UNLIMITED
      && job.Settled(s) && DeviceRequests.ReadsFirst(s.requests, job.deviceClass)
      && (forall i :: 0 <= i < |rounds| ==> rounds[i].Timely())
      ensures job.Writes(s, rounds) == |rounds|
    {
      HalfPercentIsLost(targets, c, job);
      job.UnsettlingIff(s.requests);
      job.WritesForever(s, rounds);
    }
  }

  lemma HalfPercentIsLost(targets: LatencyTargets, c: OptimalConfiguration, job: Job)
    requires INPUTS.Build().Valid() && INPUTS.Build().Answers(targets, c) && job.desired == Desired(c)
    ensures job.Valid() && !job.ComputeKept()
  {
    var p := INPUTS.Build();
    INPUTS.BuildIsValid();
    AnswerFraction(p, targets, c);
    AnswerIsValid(p, targets, c, job);
  }
}
