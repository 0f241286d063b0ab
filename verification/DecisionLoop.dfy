/**
 Repeating determineScalingAction, the single-step limit and executeScalingChanges for one fixed desired
 configuration, with rounds skipped by the grace period, blocked, or failing after the status write.
 */
module DecisionLoop {
  import opened Wrappers
  import opened DeviceRequests
  import opened ScalingDecision
  import opened RealMath
  import opened ScalingLimit

  /** The replicas in the status, the requests of the recorded template, and the replicas of the workload. */
  datatype LoopState = LoopState(statusReplicas: Option<int>, requests: seq<DeviceRequest>, workloadReplicas: int)

  /**
   The inputs that change from round to round. writeOk is false when creating the template or writing the
   workload fails, recordOk when the status write that would record the new template does.
   */
  datatype RoundInput = RoundInput(arrivalRate: real, graceWait: bool, writeOk: bool, recordOk: bool)
  {
    predicate Timely() { !graceWait && writeOk }
  }

  /** A round without traffic in which everything succeeds. */
  const IDLE := RoundInput(0.0, false, true, true)

  const UNLIMITED := Limits(None, None)

  datatype Job = Job(desired: ResourceConfiguration, deviceClass: string, targets: map<string, real>, limits: Limits)
  {
    /** Non-negative compute of any fraction and a whole number of bytes, for at least one GPU a replica. */
    predicate Valid() {
      && desired.replicas >= 0 && desired.gpusPerReplica >= 1 && desired.requestedCompute >= 0.0
      && desired.requestedMemoryGB >= 0.0
      && desired.requestedMemoryGB * GIB == (desired.requestedMemoryGB * GIB).Floor as real
    }

    function Current(s: LoopState): ResourceConfiguration {
      CurrentConfiguration(s.statusReplicas, Some(ReadBack(s.requests, deviceClass)))
    }

    function DecideAt(s: LoopState, arrivalRate: real): Verdict {
      Decide(Current(s), desired, targets, arrivalRate)
    }

    /** The desired configuration after the single-step limit. */
    function Target(s: LoopState, arrivalRate: real): ResourceConfiguration
      requires desired.gpusPerReplica >= 1
    {
      Limited(Current(s), desired, LimitFor(limits, DecideAt(s, arrivalRate).action))
    }

    predicate Acts(s: LoopState, input: RoundInput) {
      DecideAt(s, input.arrivalRate).action != NoAction && !input.graceWait
    }

    /** A resource write fails by itself when no request is of the device class. */
    predicate WriteSucceeds(s: LoopState, input: RoundInput) {
      input.writeOk
      && (DecideAt(s, input.arrivalRate).resourceChange ==> TargetRequest(s.requests, deviceClass).Some?)
    }

    /** The replicas go into the status first; then resources and replicas, or replicas only, are written. */
    function Round(s: LoopState, input: RoundInput): LoopState
      requires desired.gpusPerReplica >= 1
    {
      if !Acts(s, input) then s
      else
        var v, target := DecideAt(s, input.arrivalRate), Target(s, input.arrivalRate);
        var decided := s.(statusReplicas := Some(target.replicas));
        if !WriteSucceeds(s, input) then decided
        else if v.resourceChange then
          decided.(requests := if input.recordOk then Written(s.requests, deviceClass, target) else s.requests,
                   workloadReplicas := target.replicas)
        else if v.replicaChange then decided.(workloadReplicas := target.replicas)
        else decided
    }

    /** Not waiting, failing, or kept from scaling down by the utilization check. */
    predicate Undisturbed(input: RoundInput) {
      input.Timely() && !Blocked(targets, desired, input.arrivalRate)
    }

    function Rounds(s: LoopState, inputs: seq<RoundInput>): LoopState
      requires desired.gpusPerReplica >= 1
      decreases |inputs|
    {
      if inputs == [] then s else Rounds(Round(s, inputs[0]), inputs[1..])
    }

    predicate WritesWorkload(s: LoopState, input: RoundInput) {
      var v := DecideAt(s, input.arrivalRate);
      Acts(s, input) && WriteSucceeds(s, input) && (v.resourceChange || v.replicaChange)
    }

    function Writes(s: LoopState, inputs: seq<RoundInput>): nat
      requires desired.gpusPerReplica >= 1
      decreases |inputs|
    {
      if inputs == [] then 0
      else (if WritesWorkload(s, inputs[0]) then 1 else 0) + Writes(Round(s, inputs[0]), inputs[1..])
    }

    // ---------- without a limit ----------

    /** Once the replicas are recorded as desired: what still makes a round write the workload. */
    predicate NeedsRewrite(c: ResourceConfiguration) {
      && !Equivalent(c, desired)
      && if c.gpusPerReplica as real * c.requestedCompute == desired.gpusPerReplica as real * desired.requestedCompute
         then MemoryDiffers(c, desired)
         else PerReplicaDiffers(c, desired)
    }

    lemma RewriteIsDecided(c: ResourceConfiguration)
      requires c.replicas == desired.replicas >= 0
      ensures NeedsRewrite(c) <==> Compare(c, desired).resourceChange
      ensures !Compare(c, desired).replicaChange
      ensures NeedsRewrite(c) ==> Compare(c, desired).action != NoAction
    {
      if desired.replicas >= 1 {
        EqualTotals(desired.replicas, c.gpusPerReplica, desired.gpusPerReplica,
                    c.requestedCompute, desired.requestedCompute);
        hide Equivalent;
      } else {
        NoReplicas(c, desired);
      }
      hide MemoryDiffers, PerReplicaDiffers, ComputeOver, TotalMemory;
    }

    /** What is read once the desired configuration has been written into a template. */
    function ReadsAs(requests: seq<DeviceRequest>): ResourceConfiguration {
      CurrentConfiguration(Some(desired.replicas), Some(ReadBack(Written(requests, deviceClass, desired), deviceClass)))
    }

    /** A template that can be written, and is read as something that makes the next round write it again. */
    predicate Unsettling(requests: seq<DeviceRequest>) {
      TargetRequest(requests, deviceClass).Some? && NeedsRewrite(ReadsAs(requests))
    }

    predicate Settled(s: LoopState) {
      s.statusReplicas == Some(desired.replicas) && Current(s) == ReadsAs(s.requests)
    }

    /** How many workload writes a state has left. */
    function Budget(s: LoopState): nat {
      if Settled(s) then 0 else if s.statusReplicas == Some(desired.replicas) then 1 else 2
    }

    /** Rounds whose final status write, if they come to it, is lost. */
    function Unrecorded(inputs: seq<RoundInput>): nat {
      if inputs == [] then 0 else (if inputs[0].recordOk then 0 else 1) + Unrecorded(inputs[1..])
    }

    lemma RoundReadsAs(s: LoopState, input: RoundInput)
      requires desired.gpusPerReplica >= 1 && limits == UNLIMITED
      ensures ReadsAs(Round(s, input).requests) == ReadsAs(s.requests)
      ensures Unsettling(Round(s, input).requests) == Unsettling(s.requests)
      ensures WritesWorkload(s, input) && DecideAt(s, input.arrivalRate).resourceChange && input.recordOk ==>
                Settled(Round(s, input))
    {
      if TargetRequest(s.requests, deviceClass).Some? {
        WrittenTwice(s.requests, deviceClass, desired);
      }
      hide Decide, ReadBack, Written, NeedsRewrite, TargetRequest;
    }

    lemma RoundSpendsBudget(s: LoopState, input: RoundInput)
      requires desired.replicas >= 0 && desired.gpusPerReplica >= 1 && limits == UNLIMITED && !Unsettling(s.requests)
      ensures (if WritesWorkload(s, input) then 1 else 0) + Budget(Round(s, input))
           <= Budget(s) + (if input.recordOk then 0 else 1)
    {
      RoundReadsAs(s, input);
      if Settled(s) {
        RewriteIsDecided(Current(s));
      }
      hide Compare, ReadBack, Written, NeedsRewrite;
    }

    /** Over every run, whichever rounds are skipped, blocked or fail: two writes, and one for each lost recording. */
    lemma {:induction false} AtMostTwoWrites(s: LoopState, inputs: seq<RoundInput>)
      requires desired.replicas >= 0 && desired.gpusPerReplica >= 1 && limits == UNLIMITED && !Unsettling(s.requests)
      ensures Writes(s, inputs) <= Budget(s) + Unrecorded(inputs) <= 2 + Unrecorded(inputs)
      decreases |inputs|
    {
      if inputs != [] {
        RoundSpendsBudget(s, inputs[0]);
        RoundReadsAs(s, inputs[0]);
        AtMostTwoWrites(Round(s, inputs[0]), inputs[1..]);
      }
    }

    /** Otherwise every timely round after a resource write writes the workload again, if traffic does not block it. */
    lemma {:induction false} WritesForever(s: LoopState, inputs: seq<RoundInput>)
      requires desired.replicas >= 0 && desired.gpusPerReplica >= 1 && limits == UNLIMITED
      requires Settled(s) && Unsettling(s.requests)
      requires forall i :: 0 <= i < |inputs| ==> inputs[i].Timely()
      requires Compare(Current(s), desired).action == ScaleDown ==>
                 forall i :: 0 <= i < |inputs| ==> Undisturbed(inputs[i])
      ensures Writes(s, inputs) == |inputs| && Settled(Rounds(s, inputs))
      decreases |inputs|
    {
      if inputs != [] {
        RewriteIsDecided(Current(s));
        RoundReadsAs(s, inputs[0]);
        hide Compare, ReadBack, Written, NeedsRewrite, Blocked;
        assert WritesWorkload(s, inputs[0]);
        WritesForever(Round(s, inputs[0]), inputs[1..]);
      }
    }

    /** For any template, as it is and as written, the bound holds exactly when it is not unsettling. */
    lemma TwoWritesIff(requests: seq<DeviceRequest>)
      requires desired.replicas >= 0 && desired.gpusPerReplica >= 1 && limits == UNLIMITED
      ensures !Unsettling(requests) <==>
                forall s: LoopState, inputs: seq<RoundInput> ::
                  s.requests == requests || s.requests == Written(requests, deviceClass, desired) ==>
                    Writes(s, inputs) <= 2 + Unrecorded(inputs)
    {
      var once := Written(requests, deviceClass, desired);
      if TargetRequest(requests, deviceClass).Some? {
        WrittenTwice(requests, deviceClass, desired);
      }
      if Unsettling(requests) {
        var s, inputs := LoopState(Some(desired.replicas), once, desired.replicas), seq(3, _ => IDLE);
        WritesForever(s, inputs);
        AllRecorded(inputs);
      } else {
        forall s: LoopState, inputs: seq<RoundInput> | s.requests == requests || s.requests == once
          ensures Writes(s, inputs) <= 2 + Unrecorded(inputs)
        {
          AtMostTwoWrites(s, inputs);
        }
      }
    }

    lemma {:induction false} AllRecorded(inputs: seq<RoundInput>)
      requires forall i :: 0 <= i < |inputs| ==> inputs[i].recordOk
      ensures Unrecorded(inputs) == 0
    {
      if inputs != [] {
        AllRecorded(inputs[1..]);
      }
    }

    // ---------- where write and read fit ----------

    /** No more of the compute is lost in the template than a rewrite takes notice of. */
    predicate ComputeKept() { desired.replicas == 0 || Fraction(desired.requestedCompute) <= THRESHOLD }

    /** What all GPUs of all replicas lose together. */
    function LostInAll(): real {
      ComputeOver(desired.replicas, desired.gpusPerReplica, Fraction(desired.requestedCompute))
    }

    lemma ReadsWholeCompute(requests: seq<DeviceRequest>)
      requires Valid() && ReadsFirst(requests, deviceClass)
      ensures TargetRequest(requests, deviceClass).Some?
      ensures ReadsAs(requests) == desired.(requestedCompute := desired.requestedCompute.Floor as real)
    {
      ReadsFirstIsTarget(requests, deviceClass);
      ReadsInTemplate(requests, deviceClass, desired);
      TruncateWhole(desired.requestedMemoryGB * GIB);
    }

    lemma LossDecides()
      requires Valid()
      ensures var v := Compare(desired.(requestedCompute := desired.requestedCompute.Floor as real), desired);
              && (v == NO_CHANGE <==> LostInAll() <= THRESHOLD)
              && v.action != ScaleDown && !v.replicaChange && (v.resourceChange <==> !ComputeKept())
    {
      var r, g, kept := desired.replicas, desired.gpusPerReplica, desired.requestedCompute.Floor as real;
      DistanceOfTotals(r, g, kept, desired.requestedCompute);
      OverEveryGPU(r, g, Fraction(desired.requestedCompute));
      OverEveryGPU(r, g, kept);
      NonNegativeProduct(r as real, desired.requestedMemoryGB);
      hide ComputeOver;
    }

    /** A template without loud later requests is unsettling exactly when the compute loses more than 0.01 in it. */
    lemma UnsettlingIff(requests: seq<DeviceRequest>)
      requires Valid() && ReadsFirst(requests, deviceClass)
      ensures Unsettling(requests) <==> !ComputeKept()
      ensures var v := Compare(ReadsAs(requests), desired);
              && (v == NO_CHANGE <==> LostInAll() <= THRESHOLD)
              && v.action != ScaleDown && !v.replicaChange && (v.resourceChange <==> !ComputeKept())
    {
      ReadsWholeCompute(requests);
      LossDecides();
      RewriteIsDecided(ReadsAs(requests));
      hide Compare, ComputeOver, ComputeKept, ReadsAs, TargetRequest, NeedsRewrite;
    }

    /**
     After a resource write the next decision is no action exactly when the compute lost adds up to at most 0.01
     over all GPUs, and the workload is written again exactly when the loss of one GPU is more than that.
     */
    lemma ResourceWriteSettlesIff(s: LoopState, input: RoundInput, next: RoundInput)
      requires Valid() && limits == UNLIMITED && ReadsFirst(s.requests, deviceClass)
      requires WritesWorkload(s, input) && DecideAt(s, input.arrivalRate).resourceChange && input.recordOk
      ensures Round(s, input).workloadReplicas == desired.replicas
      ensures DecideAt(Round(s, input), next.arrivalRate) == NO_CHANGE <==>
                LostInAll() <= THRESHOLD
      ensures WritesWorkload(Round(s, input), next) <==> next.Timely() && !ComputeKept()
    {
      RoundReadsAs(s, input);
      UnsettlingIff(s.requests);
      RewriteIsDecided(Current(Round(s, input)));
      hide Compare, ComputeOver, ComputeKept, ReadsFirst, ReadBack, Written, NeedsRewrite;
    }

    /** So with whole-number compute the next decision is no action, whatever the traffic. */
    lemma WholeComputeSettles(s: LoopState, input: RoundInput, arrivalRate: real)
      requires Valid() && desired.Whole() && limits == UNLIMITED && ReadsFirst(s.requests, deviceClass)
      requires WritesWorkload(s, input) && DecideAt(s, input.arrivalRate).resourceChange && input.recordOk
      ensures Current(Round(s, input)) == desired
      ensures DecideAt(Round(s, input), arrivalRate) == NO_CHANGE
    {
      RoundReadsAs(s, input);
      ReadsWholeCompute(s.requests);
      hide Round, ReadsAs, ReadsFirst, ReadBack, Written;
      SettledIsNoAction(desired, desired, targets, arrivalRate);
    }

    /** The bound holds for every run on every template without loud later requests exactly when the compute is kept. */
    lemma ComputeKeptIff()
      requires Valid() && limits == UNLIMITED
      ensures ComputeKept() <==>
                forall s: LoopState, inputs: seq<RoundInput> :: ReadsFirst(s.requests, deviceClass)
                  ==> Writes(s, inputs) <= 2 + Unrecorded(inputs)
    {
      if ComputeKept() {
        forall s: LoopState, inputs: seq<RoundInput> | ReadsFirst(s.requests, deviceClass)
          ensures Writes(s, inputs) <= 2 + Unrecorded(inputs)
        {
          UnsettlingIff(s.requests);
          AtMostTwoWrites(s, inputs);
        }
      } else {
        var requests := [DeviceRequest("gpu", Some(Device(deviceClass, 1, None)), [])];
        assert Visited(requests, deviceClass)[1..] == [];
        UnsettlingIff(requests);
        WrittenTwice(requests, deviceClass, desired);
        TwoWritesIff(requests);
      }
    }

    // ---------- one round, limited or not ----------

    /**
     The status is decided before the workload is written: both get the limited replicas, and a recorded resource
     write is read back as the limited configuration.
     */
    lemma RoundWritesTarget(s: LoopState, input: RoundInput)
      requires desired.gpusPerReplica >= 1 && Acts(s, input) && Target(s, input.arrivalRate).gpusPerReplica >= 1
      requires ReadsFirst(s.requests, deviceClass)
      ensures var t, target := Round(s, input), Target(s, input.arrivalRate);
              && t.statusReplicas == Some(target.replicas)
              && t.workloadReplicas == (if WritesWorkload(s, input) then target.replicas else s.workloadReplicas)
              && (if WritesWorkload(s, input) && DecideAt(s, input.arrivalRate).resourceChange && input.recordOk
                  then ReadsExactly(ReadBack(t.requests, deviceClass), InTemplate(target))
                  else t.requests == s.requests)
    {
      ReadsFirstIsTarget(s.requests, deviceClass);
      ReadsInTemplate(s.requests, deviceClass, Target(s, input.arrivalRate));
      hide Decide, Limited, ReadsFirst, ReadsExactly, ReadBack, Written, InTemplate;
    }

    // ---------- a replica patch that fails ----------

    /** With the replicas recorded, some round can still write the workload exactly then, given a matching request. */
    lemma RecordedIsWrittenIff(s: LoopState)
      requires desired.replicas >= 0 && desired.gpusPerReplica >= 1 && s.statusReplicas == Some(desired.replicas)
      ensures (exists input :: WritesWorkload(s, input)) <==>
                NeedsRewrite(Current(s)) && TargetRequest(s.requests, deviceClass).Some?
    {
      RewriteIsDecided(Current(s));
      hide NeedsRewrite, Compare, ReadBack;
      if NeedsRewrite(Current(s)) && TargetRequest(s.requests, deviceClass).Some? {
        assert WritesWorkload(s, IDLE);
      }
    }

    /** Otherwise no round changes anything again, although the workload may run other replicas than recorded. */
    lemma {:induction false} NothingIsWritten(s: LoopState, inputs: seq<RoundInput>)
      requires desired.replicas >= 0 && desired.gpusPerReplica >= 1 && s.statusReplicas == Some(desired.replicas)
      requires limits == UNLIMITED
      requires !(NeedsRewrite(Current(s)) && TargetRequest(s.requests, deviceClass).Some?)
      ensures Rounds(s, inputs) == s && Writes(s, inputs) == 0
      decreases |inputs|
    {
      RecordedIsWrittenIff(s);
      if inputs != [] {
        assert !WritesWorkload(s, inputs[0]);
        hide NeedsRewrite, WriteSucceeds;
        NothingIsWritten(Round(s, inputs[0]), inputs[1..]);
      }
    }

    /**
     A replica patch that failed: the status already holds the replicas it was for, so the workload gets them
     exactly when the resources per replica make a later round rewrite it, and never again changes otherwise.
     */
    lemma FailedReplicaPatchArrivesIff(s: LoopState, input: RoundInput)
      requires desired.replicas >= 0 && desired.gpusPerReplica >= 1 && limits == UNLIMITED
      requires Acts(s, input) && DecideAt(s, input.arrivalRate).replicaChange && !input.writeOk
      requires s.workloadReplicas != desired.replicas
      ensures var arrives := NeedsRewrite(Current(s).(replicas := desired.replicas))
                          && TargetRequest(s.requests, deviceClass).Some?;
              && (arrives <==> exists inputs :: Rounds(Round(s, input), inputs).workloadReplicas == desired.replicas)
              && (!arrives ==> forall inputs :: Rounds(Round(s, input), inputs).workloadReplicas == s.workloadReplicas)
    {
      var after := Round(s, input);
      assert Current(after) == Current(s).(replicas := desired.replicas);
      if NeedsRewrite(Current(after)) && TargetRequest(s.requests, deviceClass).Some? {
        WrittenNext(after);
      } else {
        hide NeedsRewrite, Round, Current;
        forall inputs
          ensures Rounds(after, inputs) == after
        {
          NothingIsWritten(after, inputs);
        }
      }
    }

    lemma WrittenNext(s: LoopState)
      requires desired.replicas >= 0 && desired.gpusPerReplica >= 1 && limits == UNLIMITED
      requires s.statusReplicas == Some(desired.replicas)
      requires NeedsRewrite(Current(s)) && TargetRequest(s.requests, deviceClass).Some?
      ensures Rounds(s, [IDLE]).workloadReplicas == desired.replicas
    {
      RewriteIsDecided(Current(s));
      hide NeedsRewrite, Compare, ReadBack, Written;
      assert Rounds(s, [IDLE]) == Round(s, IDLE);
    }

    // ---------- a decision that acts on the status alone ----------

    /** A round that acts on the status alone, with the replicas recorded, comes back unchanged at the same traffic. */
    lemma {:induction false} StatusOnlyRecurs(s: LoopState, inputs: seq<RoundInput>, arrivalRate: real)
      requires desired.gpusPerReplica >= 1 && limits == UNLIMITED
      requires StatusOnly(DecideAt(s, arrivalRate)) && s.statusReplicas == Some(desired.replicas)
      requires forall i :: 0 <= i < |inputs| ==> inputs[i].arrivalRate == arrivalRate && !inputs[i].graceWait
      ensures Rounds(s, inputs) == s && StatusOnly(DecideAt(Rounds(s, inputs), arrivalRate))
      ensures forall i :: 0 <= i < |inputs| ==> Acts(Rounds(s, inputs[..i]), inputs[i])
      decreases |inputs|
    {
      if inputs != [] {
        StatusOnlyRecurs(s, inputs[1..], arrivalRate);
        forall i | 0 <= i < |inputs|
          ensures Acts(Rounds(s, inputs[..i]), inputs[i])
        {
          if i > 0 {
            assert inputs[..i][1..] == inputs[1..][..i - 1];
            assert Acts(Rounds(s, inputs[1..][..i - 1]), inputs[1..][i - 1]);
          }
        }
      }
    }

    // ---------- with a limit on each step ----------

    /** The workload runs as the status says, and nothing but the number of replicas is off. */
    predicate OnlyReplicasDiffer(s: LoopState) {
      var c := Current(s);
      c == desired.(replicas := c.replicas) && c.replicas >= 1 && s.workloadReplicas == c.replicas
    }

    /** A desired configuration of at least one percent compute. */
    predicate Substantial() {
      Proper(desired) && desired.requestedCompute >= 1.0 && desired.requestedMemoryGB >= 0.0
    }

    function LimitTowards(s: LoopState): int {
      LimitFor(limits, if Current(s).replicas <= desired.replicas then ScaleUp else ScaleDown)
    }

    /** A timely round takes the workload exactly one limited step; only downwards must it not be blocked. */
    lemma RoundIsLimitedStep(s: LoopState, input: RoundInput)
      requires Substantial() && OnlyReplicasDiffer(s) && input.Timely()
      requires Current(s).replicas > desired.replicas ==> !Blocked(targets, desired, input.arrivalRate)
      ensures OnlyReplicasDiffer(Round(s, input))
      ensures Current(Round(s, input)) == Limited(Current(s), desired, LimitTowards(s))
    {
      ReplicasDecide(Current(s), desired);
      CapKeepsMatchingGPUs(Current(s), desired, LimitTowards(s));
      LimitedKeepsReplicas(Current(s), desired, LimitTowards(s));
      hide Compare, Limited, ReadBack, Blocked;
    }

    /** Scaling up under a limit: rounds are iterated limited steps, and arrive once they cover the gap. */
    lemma {:induction false} LimitedScaleUp(s: LoopState, inputs: seq<RoundInput>)
      requires Substantial() && OnlyReplicasDiffer(s) && Current(s).replicas <= desired.replicas
      requires limits.scaleUp.Some? && limits.scaleUp.value >= 1
      requires forall i :: 0 <= i < |inputs| ==> inputs[i].Timely()
      ensures Current(Rounds(s, inputs)) == Iterate(Current(s), desired, limits.scaleUp.value, |inputs|)
      ensures Rounds(s, inputs).workloadReplicas == Current(Rounds(s, inputs)).replicas
      decreases |inputs|
    {
      if inputs != [] {
        RoundIsLimitedStep(s, inputs[0]);
        NotPastDesired(Current(s), desired, limits.scaleUp.value);
        hide Limited, Round, DecideAt, Undisturbed, Current;
        LimitedScaleUp(Round(s, inputs[0]), inputs[1..]);
      }
    }

    /** Scaling down likewise, until the desired replicas are reached. */
    lemma {:induction false} LimitedScaleDown(s: LoopState, inputs: seq<RoundInput>)
      requires Substantial() && OnlyReplicasDiffer(s) && Current(s).replicas >= desired.replicas
      requires limits.scaleDown.Some? && limits.scaleDown.value >= 1
      requires forall i :: 0 <= i < |inputs| ==> Undisturbed(inputs[i])
      ensures Current(Rounds(s, inputs)) == Iterate(Current(s), desired, limits.scaleDown.value, |inputs|)
      ensures Rounds(s, inputs).workloadReplicas == Current(Rounds(s, inputs)).replicas
      ensures OnlyReplicasDiffer(Rounds(s, inputs))
      decreases |inputs|
    {
      if inputs != [] {
        RoundIsLimitedStep(s, inputs[0]);
        NotPastDesired(Current(s), desired, limits.scaleDown.value);
        SettledLimit(desired, LimitTowards(s), limits.scaleDown.value);
        hide Limited, Round, DecideAt, Undisturbed, Current;
        LimitedScaleDown(Round(s, inputs[0]), inputs[1..]);
      }
    }

    /** So scaling up always arrives, in as many rounds as the limit goes into the gap. */
    lemma LimitedScaleUpArrives(s: LoopState, inputs: seq<RoundInput>)
      requires Substantial() && OnlyReplicasDiffer(s) && Current(s).replicas <= desired.replicas
      requires limits.scaleUp.Some? && limits.scaleUp.value >= 1
      requires forall i :: 0 <= i < |inputs| ==> inputs[i].Timely()
      requires |inputs| >= 1 && |inputs| * limits.scaleUp.value >= TotalGPUs(desired) - TotalGPUs(Current(s))
      ensures Current(Rounds(s, inputs)) == desired && Rounds(s, inputs).workloadReplicas == desired.replicas
    {
      LimitedScaleUp(s, inputs);
      ProductMono(Current(s).replicas, desired.replicas, desired.gpusPerReplica, desired.gpusPerReplica);
      ProductMono(0, Current(s).replicas, desired.gpusPerReplica, desired.gpusPerReplica);
      UpReachesDesired(Current(s), desired, limits.scaleUp.value, |inputs|);
    }

    /** With a limit of at least one replica's GPUs it arrives too. */
    lemma LimitedScaleDownArrives(s: LoopState, inputs: seq<RoundInput>)
      requires Substantial() && OnlyReplicasDiffer(s) && Current(s).replicas >= desired.replicas
      requires limits.scaleDown.Some? && limits.scaleDown.value >= desired.gpusPerReplica
      requires forall i :: 0 <= i < |inputs| ==> Undisturbed(inputs[i])
      requires |inputs| >= 1
      requires |inputs| * (limits.scaleDown.value - desired.gpusPerReplica + 1)
            >= TotalGPUs(Current(s)) - TotalGPUs(desired)
      ensures Current(Rounds(s, inputs)) == desired && Rounds(s, inputs).workloadReplicas == desired.replicas
    {
      LimitedScaleDown(s, inputs);
      ProductMono(desired.replicas, Current(s).replicas, desired.gpusPerReplica, desired.gpusPerReplica);
      DownReachesDesired(Current(s), desired, limits.scaleDown.value, |inputs|);
    }

    /** So a scale-down by more than the limit closes the gap in the end exactly when the limit covers one replica. */
    lemma LimitedScaleDownArrivesIff(s: LoopState)
      requires Substantial() && OnlyReplicasDiffer(s) && limits.scaleDown.Some? && limits.scaleDown.value >= 1
      requires TotalGPUs(Current(s)) - TotalGPUs(desired) > limits.scaleDown.value
      ensures limits.scaleDown.value >= desired.gpusPerReplica <==>
                exists inputs: seq<RoundInput> :: (forall i :: 0 <= i < |inputs| ==> Undisturbed(inputs[i]))
                  && Rounds(s, inputs).workloadReplicas == desired.replicas
    {
      var c, l := Current(s), limits.scaleDown.value;
      if c.replicas < desired.replicas {
        ProductMono(c.replicas, desired.replicas, desired.gpusPerReplica, desired.gpusPerReplica);
      }
      DownArrivesIff(c, desired, l);
      hide Rounds, Current;
      if l >= desired.gpusPerReplica {
        var n: nat :| Iterate(c, desired, l, n) == desired;
        LimitedScaleDown(s, seq(n, _ => IDLE));
      } else {
        forall inputs: seq<RoundInput> | forall i :: 0 <= i < |inputs| ==> Undisturbed(inputs[i])
          ensures Rounds(s, inputs).workloadReplicas != desired.replicas
        {
          LimitedScaleDown(s, inputs);
        }
      }
    }
  }

  /** The decision acts, yet neither flag asks for a workload write. */
  predicate StatusOnly(v: Verdict) { v.action != NoAction && !v.replicaChange && !v.resourceChange }

  /**
   Before the utilization check that happens exactly when the replicas agree, memory differs by at most 0.01 GB,
   and either a compute difference of at most 0.01 adds up to more over all GPUs, or the memory
   difference is more than a hundredth of less than one gigabyte.
   */
  lemma StatusOnlyIff(c: ResourceConfiguration, d: ResourceConfiguration)
    requires c.replicas >= 1 && c.gpusPerReplica >= 0
    ensures var dc, dm := Abs(d.requestedCompute - c.requestedCompute), Abs(d.requestedMemoryGB - c.requestedMemoryGB);
            var sameKind := c.gpusPerReplica == d.gpusPerReplica && dc <= THRESHOLD;
            var sameTotal :=
              c.gpusPerReplica as real * c.requestedCompute == d.gpusPerReplica as real * d.requestedCompute;
            StatusOnly(Compare(c, d)) <==>
              && c.replicas == d.replicas && dm <= THRESHOLD
              && ((sameKind && ComputeOver(c.replicas, c.gpusPerReplica, dc) > THRESHOLD)
                  || ((sameKind || sameTotal) && dm > c.requestedMemoryGB * THRESHOLD))
  {
    if c.replicas == d.replicas {
      AbsSymmetric(c.requestedCompute, d.requestedCompute);
      AbsSymmetric(c.requestedMemoryGB, d.requestedMemoryGB);
      ComputeTotals(c, d);
      MemoryTotals(c, d);
      SameReplicas(c, d);
      hide Abs, TotalCompute, TotalMemory, Compare;
    }
  }

  lemma ComputeTotals(c: ResourceConfiguration, d: ResourceConfiguration)
    requires c.replicas == d.replicas >= 1 && c.gpusPerReplica >= 0
    ensures TotalCompute(d) == TotalCompute(c) <==>
              c.gpusPerReplica as real * c.requestedCompute == d.gpusPerReplica as real * d.requestedCompute
    ensures TotalCompute(d) == TotalCompute(c) ==> Abs(TotalCompute(d) - TotalCompute(c)) == 0.0
    ensures c.gpusPerReplica == d.gpusPerReplica ==>
              Abs(TotalCompute(d) - TotalCompute(c))
                == ComputeOver(c.replicas, c.gpusPerReplica, Abs(d.requestedCompute - c.requestedCompute))
  {
    hide Abs, ComputeOver;
    EqualTotals(c.replicas, c.gpusPerReplica, d.gpusPerReplica, c.requestedCompute, d.requestedCompute);
    DistanceOfTotals(c.replicas, c.gpusPerReplica, c.requestedCompute, d.requestedCompute);
    AbsOfZero(TotalCompute(d) - TotalCompute(c));
  }

  lemma EqualTotals(r: int, g: int, h: int, x: real, y: real)
    requires r >= 1
    ensures ComputeOver(r, h, y) == ComputeOver(r, g, x) <==> g as real * x == h as real * y
  {
    Regroup(r as real, g as real, x);
    Regroup(r as real, h as real, y);
    ScaledOrder(r as real, g as real * x, h as real * y);
  }

  lemma DistanceOfTotals(r: int, g: int, x: real, y: real)
    requires r >= 0 && g >= 0
    ensures Abs(ComputeOver(r, g, y) - ComputeOver(r, g, x)) == ComputeOver(r, g, Abs(y - x))
  {
    NonNegativeProduct(r as real, g as real);
    ScaledGap(r as real * g as real, x, y);
    assert Abs(y - x) == if y >= x then y - x else x - y;
  }

  lemma ScaledGap(k: real, x: real, y: real)
    requires k >= 0.0
    ensures y >= x ==> k * y - k * x == k * (y - x) >= 0.0
    ensures y < x ==> k * y - k * x == -(k * (x - y)) <= 0.0
  {
  }

  lemma MemoryTotals(c: ResourceConfiguration, d: ResourceConfiguration)
    requires c.replicas == d.replicas >= 1
    ensures Abs(TotalMemory(d) - TotalMemory(c)) > TotalMemory(c) * THRESHOLD <==>
              Abs(d.requestedMemoryGB - c.requestedMemoryGB) > c.requestedMemoryGB * THRESHOLD
  {
    var r := c.replicas as real;
    hide Abs;
    ScaledDistance(r, d.requestedMemoryGB, c.requestedMemoryGB);
    Regroup(r, c.requestedMemoryGB, THRESHOLD);
    ScaledOrder(r, Abs(d.requestedMemoryGB - c.requestedMemoryGB), c.requestedMemoryGB * THRESHOLD);
    assert TotalMemory(d) == r * d.requestedMemoryGB;
    assert TotalMemory(c) == r * c.requestedMemoryGB;
    assert Abs(TotalMemory(d) - TotalMemory(c)) == r * Abs(d.requestedMemoryGB - c.requestedMemoryGB);
    assert TotalMemory(c) * THRESHOLD == r * (c.requestedMemoryGB * THRESHOLD);
  }

  lemma AbsOfZero(x: real)
    ensures x == 0.0 ==> Abs(x) == 0.0
  {
  }

  /** The same with the products named. */
  lemma SameReplicas(c: ResourceConfiguration, d: ResourceConfiguration)
    requires c.replicas == d.replicas
    ensures var dm := Abs(c.requestedMemoryGB - d.requestedMemoryGB);
            StatusOnly(Compare(c, d)) <==>
              && !Equivalent(c, d) && dm <= THRESHOLD
              && (TotalCompute(d) == TotalCompute(c)
                  || (c.gpusPerReplica == d.gpusPerReplica
                      && Abs(c.requestedCompute - d.requestedCompute) <= THRESHOLD))
  {
    hide Equivalent, TotalCompute, TotalMemory, Abs;
  }

  lemma AbsSymmetric(x: real, y: real)
    ensures Abs(x - y) == Abs(y - x)
  {
  }

  lemma ScaledDistance(k: real, x: real, y: real)
    requires k >= 0.0
    ensures Abs(k * x - k * y) == k * Abs(x - y)
  {
    assert k * x - k * y == k * (x - y);
    if x >= y {
      assert k * (x - y) >= 0.0;
    } else {
      assert k * (y - x) >= 0.0;
      assert k * (y - x) == -(k * (x - y));
    }
  }

  lemma ScaledOrder(k: real, x: real, y: real)
    requires k > 0.0
    ensures k * x > k * y <==> x > y
    ensures k * x == k * y <==> x == y
  {
    assert k * x - k * y == k * (x - y);
    if x > y {
      assert k * (x - y) > 0.0;
    } else if x < y {
      assert k * (y - x) > 0.0;
    }
  }

  lemma NoReplicas(c: ResourceConfiguration, d: ResourceConfiguration)
    requires c.replicas == d.replicas == 0
    ensures Equivalent(c, d)
  {
    assert TotalCompute(c) == 0.0 == TotalCompute(d);
    assert TotalMemory(c) == 0.0 == TotalMemory(d);
  }

  /** Summed over all GPUs of all replicas, if there are any, a non-negative amount is no less than itself. */
  lemma OverEveryGPU(replicas: int, gpus: int, x: real)
    requires replicas >= 0 && gpus >= 1 && x >= 0.0
    ensures ComputeOver(replicas, gpus, x) >= if replicas == 0 then 0.0 else x
    ensures replicas == 0 ==> ComputeOver(replicas, gpus, x) == 0.0
  {
    if replicas >= 1 {
      MulLowerBound(replicas as real, gpus as real);
      MulMono(1.0, replicas as real * gpus as real, x);
    }
  }

  lemma NonNegativeProduct(x: real, y: real)
    requires x >= 0.0 && y >= 0.0
    ensures x * y >= 0.0
  {
  }

  /** Whole percentages on both sides and at least a gigabyte of memory rule it out. */
  lemma WholePercentagesNeverStatusOnly(c: ResourceConfiguration, d: ResourceConfiguration)
    requires c.replicas >= 1 && c.gpusPerReplica >= 0 && c.requestedMemoryGB >= 1.0
    requires c.requestedCompute == c.requestedCompute.Floor as real
    requires d.requestedCompute == d.requestedCompute.Floor as real
    ensures !StatusOnly(Compare(c, d))
  {
    StatusOnlyIff(c, d);
    hide Compare, StatusOnly;
    WholeAndClose(c.requestedCompute, d.requestedCompute);
  }

  lemma WholeAndClose(x: real, y: real)
    requires x == x.Floor as real && y == y.Floor as real
    ensures Abs(y - x) <= THRESHOLD ==> x == y
  {
    var m, n := x.Floor, y.Floor;
    assert m < n ==> y - x >= 1.0;
    assert m > n ==> x - y >= 1.0;
  }

  /** Only the number of replicas is off: the decision is its direction, to be met by a replica patch. */
  lemma ReplicasDecide(c: ResourceConfiguration, d: ResourceConfiguration)
    requires c == d.(replicas := c.replicas) && c.replicas >= 0 && d.replicas >= 0
    requires d.gpusPerReplica >= 1 && d.requestedCompute >= 1.0 && d.requestedMemoryGB >= 0.0
    ensures Compare(c, d) == if c.replicas < d.replicas then Verdict(ScaleUp, true, false)
                             else if c.replicas > d.replicas then Verdict(ScaleDown, true, false)
                             else NO_CHANGE
  {
    if c.replicas < d.replicas {
      MoreReplicas(c.replicas, d.replicas, d.gpusPerReplica, d.requestedCompute);
    } else if c.replicas > d.replicas {
      MoreReplicas(d.replicas, c.replicas, d.gpusPerReplica, d.requestedCompute);
    } else {
      SettledIsNoAction(c, d, map[], 0.0);
    }
    hide ComputeOver, TotalMemory;
  }

  lemma MoreReplicas(few: int, many: int, gpus: int, compute: real)
    requires 0 <= few < many && gpus >= 1 && compute >= 1.0
    ensures ComputeOver(many, gpus, compute) >= ComputeOver(few, gpus, compute) + 1.0
  {
    var each := gpus as real * compute;
    AtLeastOne(gpus as real, compute);
    Regroup(few as real, gpus as real, compute);
    Regroup(many as real, gpus as real, compute);
    ScaledGap(each, few as real, many as real);
    AtLeastOne(many as real - few as real, each);
    assert each * (many as real - few as real) >= 1.0;
  }

  lemma AtLeastOne(x: real, y: real)
    requires x >= 1.0 && y >= 1.0
    ensures x * y >= 1.0 && y * x >= 1.0
  {
    assert (x - 1.0) * y >= 0.0;
    assert (x - 1.0) * y == x * y - y;
  }

  lemma NotPastDesired(c: ResourceConfiguration, d: ResourceConfiguration, limit: int)
    requires Proper(c) && Proper(d) && c == d.(replicas := c.replicas) && limit >= 1
    ensures c.replicas <= d.replicas ==> Limited(c, d, limit).replicas <= d.replicas
    ensures c.replicas >= d.replicas ==> Limited(c, d, limit).replicas >= d.replicas
  {
    var gap, n, g := TotalGPUs(d) - TotalGPUs(c), Limited(c, d, limit).replicas, d.gpusPerReplica;
    LimitedKeepsReplicas(c, d, limit);
    ProductMono(0, c.replicas, g, g);
    if gap > limit {
      CappedUp(c, d, limit);
      hide *;
      if n > d.replicas { NextProduct(d.replicas, n, g); }
      if c.replicas >= d.replicas { ProductMono(d.replicas, c.replicas, g, g); }
    } else if gap < -limit {
      CappedDown(c, d, limit);
      hide *;
      if n < d.replicas { NextProduct(n, d.replicas, g); }
      if c.replicas <= d.replicas { ProductMono(c.replicas, d.replicas, g, g); }
    }
  }

  lemma NextProduct(a: int, b: int, g: int)
    requires a < b && g >= 1
    ensures a * g < b * g
  {
    ProductMono(a + 1, b, g, g);
  }

  lemma SettledLimit(d: ResourceConfiguration, l: int, m: int)
    requires d.gpusPerReplica >= 1
    ensures Limited(d, d, l) == d == Limited(d, d, m)
  {
  }
}
