/** internal/scaler/scaling_action.go: comparing the current with the desired configuration. */
module ScalingDecision {
  import opened Wrappers
  import opened DeviceRequests

  datatype ScalingAction = NoAction | ScaleUp | ScaleDown

  /** The part of a decision that says what to do. */
  datatype Verdict = Verdict(action: ScalingAction, replicaChange: bool, resourceChange: bool)

  const NO_CHANGE := Verdict(NoAction, false, false)

  const THRESHOLD := 0.01

  function Abs(x: real): real { if x < 0.0 then -x else x }

  function TotalCompute(c: ResourceConfiguration): real {
    ComputeOver(c.replicas, c.gpusPerReplica, c.requestedCompute)
  }

  /** One percentage over every GPU of every replica. */
  function ComputeOver(replicas: int, gpus: int, compute: real): real {
    replicas as real * gpus as real * compute
  }

  function TotalMemory(c: ResourceConfiguration): real {
    c.replicas as real * c.requestedMemoryGB
  }

  /** Total compute within 0.01 and total memory within one percent. */
  predicate Equivalent(current: ResourceConfiguration, desired: ResourceConfiguration) {
    && Abs(TotalCompute(desired) - TotalCompute(current)) <= THRESHOLD
    && Abs(TotalMemory(desired) - TotalMemory(current)) <= TotalMemory(current) * THRESHOLD
  }

  predicate MemoryDiffers(current: ResourceConfiguration, desired: ResourceConfiguration) {
    Abs(current.requestedMemoryGB - desired.requestedMemoryGB) > THRESHOLD
  }

  predicate PerReplicaDiffers(current: ResourceConfiguration, desired: ResourceConfiguration) {
    || current.gpusPerReplica != desired.gpusPerReplica
    || Abs(current.requestedCompute - desired.requestedCompute) > THRESHOLD
    || MemoryDiffers(current, desired)
  }

  /** Direction by total compute, then by total memory; a memory-only difference ignores GPUs and compute. */
  function Compare(current: ResourceConfiguration, desired: ResourceConfiguration): Verdict {
    if Equivalent(current, desired) then NO_CHANGE
    else
      var sameCompute := TotalCompute(desired) == TotalCompute(current);
      var up := TotalCompute(desired) > TotalCompute(current)
             || (sameCompute && TotalMemory(desired) > TotalMemory(current));
      Verdict(if up then ScaleUp else ScaleDown, current.replicas != desired.replicas,
              if sameCompute then MemoryDiffers(current, desired) else PerReplicaDiffers(current, desired))
  }

  /** Compute stands in for every resource but memory, which counts as fully used. */
  function Utilization(resource: string, desired: ResourceConfiguration): real {
    if resource == MEMORY then 1.0 else desired.requestedCompute
  }

  /** Some positive minimum target is already met, under traffic. */
  predicate Blocked(targets: map<string, real>, desired: ResourceConfiguration, arrivalRate: real) {
    && arrivalRate != 0.0
    && exists resource :: resource in targets && targets[resource] > 0.0
                       && Utilization(resource, desired) >= targets[resource]
  }

  function Decide(current: ResourceConfiguration, desired: ResourceConfiguration,
                  targets: map<string, real>, arrivalRate: real): Verdict
  {
    var v := Compare(current, desired);
    if v.action == ScaleDown && Blocked(targets, desired, arrivalRate) then NO_CHANGE else v
  }

  /** The current configuration: one replica and 1 GPU / 100 percent / 80 GB unless known better. */
  function CurrentConfiguration(statusReplicas: Option<int>, reading: Option<Reading>): ResourceConfiguration {
    var replicas := match statusReplicas case Some(r) => r case None => 1;
    match reading
    case None => ResourceConfiguration(replicas, 1, 100.0, 80.0)
    case Some(r) =>
      ResourceConfiguration(replicas, r.gpus,
                            if COMPUTE in r.resources then r.resources[COMPUTE] else 100.0,
                            if MEMORY in r.resources then r.resources[MEMORY] / GIB else 80.0)
  }

  /** Of what is known nothing is replaced; of the rest one replica of one GPU, 100 percent and 80 GB is assumed. */
  lemma CurrentIs(statusReplicas: Option<int>, reading: Option<Reading>)
    ensures var c := CurrentConfiguration(statusReplicas, reading);
            && c.replicas == (if statusReplicas.Some? then statusReplicas.value else 1)
            && c.gpusPerReplica == (if reading.Some? then reading.value.gpus else 1)
            && c.requestedCompute == (if reading.Some? && COMPUTE in reading.value.resources
                                      then reading.value.resources[COMPUTE] else 100.0)
            && c.requestedMemoryGB == (if reading.Some? && MEMORY in reading.value.resources
                                       then reading.value.resources[MEMORY] / 1073741824.0 else 80.0)
  {
  }

  /** The record determineScalingAction fills and later steps overwrite. */
  class Decision {
    var action: ScalingAction
    var replicaChange: bool
    var resourceChange: bool
    var current: ResourceConfiguration
    var desired: ResourceConfiguration

    constructor (current: ResourceConfiguration, desired: ResourceConfiguration)
      ensures this.current == current && this.desired == desired && Flags() == NO_CHANGE
    {
      action, replicaChange, resourceChange := NoAction, false, false;
      this.current, this.desired := current, desired;
    }

    function Flags(): Verdict
      reads this
    {
      Verdict(action, replicaChange, resourceChange)
    }

    /** scaling_action.go:212-288, up to the scaling limit. */
    method Determine(targets: map<string, real>, arrivalRate: real)
      requires Flags() == NO_CHANGE
      modifies this
      ensures Flags() == Decide(current, desired, targets, arrivalRate)
      ensures current == old(current) && desired == old(desired)
    {
      var currentCompute, desiredCompute := TotalCompute(current), TotalCompute(desired);
      var currentMemory, desiredMemory := TotalMemory(current), TotalMemory(desired);
      var computeEqual := Abs(desiredCompute - currentCompute) <= THRESHOLD;
      var memoryEqual := Abs(desiredMemory - currentMemory) <= currentMemory * THRESHOLD;
      if computeEqual && memoryEqual {
        action := NoAction;
      } else if desiredCompute > currentCompute {
        action := ScaleUp;
        replicaChange := current.replicas != desired.replicas;
        resourceChange := PerReplicaDiffers(current, desired);
      } else if desiredCompute < currentCompute {
        action := ScaleDown;
        replicaChange := current.replicas != desired.replicas;
        resourceChange := PerReplicaDiffers(current, desired);
      } else if desiredMemory > currentMemory {
        action := ScaleUp;
        replicaChange := current.replicas != desired.replicas;
        resourceChange := MemoryDiffers(current, desired);
      } else {
        action := ScaleDown;
        replicaChange := current.replicas != desired.replicas;
        resourceChange := MemoryDiffers(current, desired);
      }
      if action == ScaleDown {
        var block := CheckMinTargetUtilization(targets, arrivalRate);
        if block {
          action, replicaChange, resourceChange := NoAction, false, false;
        }
      }
    }

    /** scaling_action.go:88-166: compute first, then memory, then every other key of the map. */
    method CheckMinTargetUtilization(targets: map<string, real>, arrivalRate: real) returns (block: bool)
      requires action == ScaleDown
      ensures block == Blocked(targets, desired, arrivalRate)
    {
      if arrivalRate == 0.0 || |targets| == 0 {
        return false;
      }
      if COMPUTE in targets && targets[COMPUTE] > 0.0 && desired.requestedCompute >= targets[COMPUTE] {
        assert Utilization(COMPUTE, desired) >= targets[COMPUTE];
        return true;
      }
      if MEMORY in targets && targets[MEMORY] > 0.0 && 1.0 >= targets[MEMORY] {
        assert Utilization(MEMORY, desired) >= targets[MEMORY];
        return true;
      }
      var others := targets.Keys - {COMPUTE, MEMORY};
      while others != {}
        invariant others <= targets.Keys - {COMPUTE, MEMORY}
        invariant forall resource :: resource in targets && resource !in others && targets[resource] > 0.0
                    ==> Utilization(resource, desired) < targets[resource]
        decreases others
      {
        var resource :| resource in others;
        if targets[resource] > 0.0 && desired.requestedCompute >= targets[resource] {
          assert Utilization(resource, desired) >= targets[resource];
          return true;
        }
        others := others - {resource};
      }
      return false;
    }
  }

  // ---------- what a decision means ----------

  /**
   Every decision, from the two configurations: nothing within a hundredth of compute and of the current memory; up for
   more compute, or for as much and more memory; down otherwise, unless there is traffic and some positive target is
   met. Replicas change when they differ; resources when those per replica do, or memory alone at equal compute.
   */
  lemma DecidesExactly(c: ResourceConfiguration, d: ResourceConfiguration, targets: map<string, real>,
                       arrivalRate: real)
    ensures var v := Decide(c, d, targets, arrivalRate);
            var compute := d.replicas as real * d.gpusPerReplica as real * d.requestedCompute
                           - c.replicas as real * c.gpusPerReplica as real * c.requestedCompute;
            var memory := d.replicas as real * d.requestedMemoryGB - c.replicas as real * c.requestedMemoryGB;
            var slack := c.replicas as real * c.requestedMemoryGB / 100.0;
            var same := -0.01 <= compute <= 0.01 && -slack <= memory <= slack;
            var up := compute > 0.0 || (compute == 0.0 && memory > 0.0);
            var memoryDiffers := !(-0.01 <= c.requestedMemoryGB - d.requestedMemoryGB <= 0.01);
            var unmet := forall r :: r in targets && targets[r] > 0.0 ==>
                           targets[r] > if r == "memory" then 1.0 else d.requestedCompute;
            var computeDiffers := c.gpusPerReplica != d.gpusPerReplica
                                  || !(-0.01 <= c.requestedCompute - d.requestedCompute <= 0.01);
            && (v.action == ScaleUp <==> !same && up)
            && (v.action == ScaleDown <==> !same && !up && (arrivalRate == 0.0 || unmet))
            && (v.replicaChange <==> v.action != NoAction && c.replicas != d.replicas)
            && (v.resourceChange <==> v.action != NoAction && (memoryDiffers || (compute != 0.0 && computeDiffers)))
  {
    BlockedIff(targets, d, arrivalRate);
    ComparesExactly(c, d);
    hide Blocked, Compare;
  }

  lemma ComparesExactly(c: ResourceConfiguration, d: ResourceConfiguration)
    ensures var v := Compare(c, d);
            var compute := d.replicas as real * d.gpusPerReplica as real * d.requestedCompute
                           - c.replicas as real * c.gpusPerReplica as real * c.requestedCompute;
            var memory := d.replicas as real * d.requestedMemoryGB - c.replicas as real * c.requestedMemoryGB;
            var slack := c.replicas as real * c.requestedMemoryGB / 100.0;
            var same := -0.01 <= compute <= 0.01 && -slack <= memory <= slack;
            var up := compute > 0.0 || (compute == 0.0 && memory > 0.0);
            var memoryDiffers := !(-0.01 <= c.requestedMemoryGB - d.requestedMemoryGB <= 0.01);
            var computeDiffers := c.gpusPerReplica != d.gpusPerReplica
                                  || !(-0.01 <= c.requestedCompute - d.requestedCompute <= 0.01);
            && v.action == (if same then NoAction else if up then ScaleUp else ScaleDown)
            && (v.replicaChange <==> !same && c.replicas != d.replicas)
            && (v.resourceChange <==> !same && (memoryDiffers || (compute != 0.0 && computeDiffers)))
  {
    TotalsAre(c);
    TotalsAre(d);
    hide TotalCompute, TotalMemory;
  }

  lemma TotalsAre(c: ResourceConfiguration)
    ensures TotalCompute(c) == c.replicas as real * c.gpusPerReplica as real * c.requestedCompute
    ensures TotalMemory(c) == c.replicas as real * c.requestedMemoryGB
  {
  }

  lemma BlockedIff(targets: map<string, real>, d: ResourceConfiguration, arrivalRate: real)
    ensures Blocked(targets, d, arrivalRate) <==>
              arrivalRate != 0.0 && !(forall r :: r in targets && targets[r] > 0.0 ==>
                                        targets[r] > if r == "memory" then 1.0 else d.requestedCompute)
  {
    if r :| r in targets && targets[r] > 0.0 && !(targets[r] > if r == "memory" then 1.0 else d.requestedCompute) {
      assert Utilization(r, d) >= targets[r];
    }
  }

  /** Lexicographic growth of (total compute, total memory). */
  predicate Grows(current: ResourceConfiguration, desired: ResourceConfiguration) {
    || TotalCompute(desired) > TotalCompute(current)
    || (TotalCompute(desired) == TotalCompute(current) && TotalMemory(desired) > TotalMemory(current))
  }

  /** One decision: up only into something larger, down only into something smaller. */
  lemma ActionFollowsTotals(current: ResourceConfiguration, desired: ResourceConfiguration,
                            targets: map<string, real>, arrivalRate: real)
    ensures var action := Decide(current, desired, targets, arrivalRate).action;
            && (action == ScaleUp ==> Grows(current, desired))
            && (action == ScaleDown && TotalMemory(current) >= 0.0 ==> Grows(desired, current))
  {
  }

  predicate Chain(configs: seq<ResourceConfiguration>, rates: seq<real>, targets: map<string, real>,
                  action: ScalingAction)
  {
    && |rates| == |configs|
    && forall i :: 0 <= i < |configs| - 1 ==> Decide(configs[i], configs[i + 1], targets, rates[i]).action == action
  }

  /** A chain of scale-ups grows all along, so it never comes back to where it was. */
  lemma {:induction false} UpsOnlyGrow(configs: seq<ResourceConfiguration>, rates: seq<real>,
                                       targets: map<string, real>, i: nat, j: nat)
    requires Chain(configs, rates, targets, ScaleUp) && i < j < |configs|
    ensures Grows(configs[i], configs[j]) && configs[i] != configs[j]
    decreases j
  {
    ActionFollowsTotals(configs[j - 1], configs[j], targets, rates[j - 1]);
    if i < j - 1 {
      UpsOnlyGrow(configs, rates, targets, i, j - 1);
    }
  }

  /** A chain of scale-downs shrinks all along. */
  lemma {:induction false} DownsOnlyShrink(configs: seq<ResourceConfiguration>, rates: seq<real>,
                                           targets: map<string, real>, i: nat, j: nat)
    requires Chain(configs, rates, targets, ScaleDown) && i < j < |configs|
    requires forall k :: 0 <= k < |configs| ==> TotalMemory(configs[k]) >= 0.0
    ensures Grows(configs[j], configs[i]) && configs[i] != configs[j]
    decreases j
  {
    ActionFollowsTotals(configs[j - 1], configs[j], targets, rates[j - 1]);
    if i < j - 1 {
      DownsOnlyShrink(configs, rates, targets, i, j - 1);
    }
  }

  /** A configuration that already reads as desired needs nothing. */
  lemma SettledIsNoAction(current: ResourceConfiguration, desired: ResourceConfiguration,
                          targets: map<string, real>, arrivalRate: real)
    requires current == desired && desired.replicas >= 0 && desired.requestedMemoryGB >= 0.0
    ensures Decide(current, desired, targets, arrivalRate) == NO_CHANGE
  {
  }

  /**
   RequestedCompute is a percentage while the targets are ratios: with any compute target in (0,1]
   and at least one percent desired, no scale-down happens under traffic.
   */
  lemma RatioTargetBlocksEveryScaleDown(current: ResourceConfiguration, desired: ResourceConfiguration,
                                        targets: map<string, real>, arrivalRate: real)
    requires COMPUTE in targets && 0.0 < targets[COMPUTE] <= 1.0
    requires desired.requestedCompute >= 1.0 && arrivalRate != 0.0
    ensures Decide(current, desired, targets, arrivalRate).action != ScaleDown
  {
  }
}
