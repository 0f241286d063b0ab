/**
 One autoscaler's templates, the claims made from them, its workload and its recorded status as a
 state machine. The steps are the writes of internal/scaler/resourceclaim_handler.go and scaler.go, the
 claim handlers and the finalizer of the controller, and what others may do in between.
 */
module TemplateLifecycle {
  import opened Wrappers
  import opened DeviceRequests
  import opened PodClaims
  import opened TemplateNames

  type Labels = map<string, string>

  const MANAGED_BY_LABEL := "autoscaling.x-llmd.ai/managed-by"
  const REVISION_LABEL := "autoscaling.x-llmd.ai/revision"
  const ORIGINAL_TEMPLATE_LABEL := "autoscaling.x-llmd.ai/original-template"
  const TEMPLATE_NAME_LABEL := "autoscaling.x-llmd.ai/template-name"
  const AUTOSCALER_LABEL := "autoscaling.x-llmd.ai/autoscaler"
  const OPERATOR_NAME := "resourceclaimautoscaler"

  /** claimLabels are the ones claims generated from the template inherit. */
  datatype Template = Template(labels: Labels, claimLabels: Labels, owner: Option<string>, requests: seq<DeviceRequest>)

  datatype Claim = Claim(labels: Labels, bound: bool)

  datatype Workload = Workload(refs: seq<Reference>, replicas: int, generation: nat)

  /** Restored: the finalizer has reverted the workload. Deleted: the autoscaler is gone. */
  datatype Phase = Active | Restored | Deleted

  datatype Cluster = Cluster(
    templates: map<string, Template>,
    claims: seq<Claim>,
    workload: Workload,
    /** Status.ScalingStatus.DesiredClaimTemplate, empty when none is recorded */
    desired: string,
    phase: Phase,
    /** history: the configuration of the last successful resource change */
    applied: Option<ResourceConfiguration>)

  /** What does not change over a run: the names and the device class the autoscaler targets. */
  datatype Autoscaler = Autoscaler(naming: Naming, deviceClass: string)

  /** The API call of a resource change that fails, if one does. */
  datatype Fault =
    | NoFault | BaseGetFails | OwnerGetFails | CheckFails | DeleteFails | CreateFails | OwnerUpdateFails
    | StatusWriteFails

  datatype Step =
    | ResourceChange(desired: ResourceConfiguration, fault: Fault)
    | ReplicaChange(replicas: int, ok: bool)
    | ClaimCreated(claim: Claim)
    | ClaimBound(index: nat, failing: set<string>)
    | ClaimUnbound(index: nat)
    | ClaimDeleted(index: nat, deleteOk: bool)
    | WorkloadEdited(replicas: int)
    | RestoreWorkload(minReplicas: int, ok: bool)
    | RemoveFinalizer
    | CollectGarbage(name: string)

  // ---------- listing ----------

  predicate Selects(selector: Labels, labels: Labels) {
    forall k :: k in selector ==> k in labels && labels[k] == selector[k]
  }

  function TemplateSelector(n: Naming): Labels {
    map[MANAGED_BY_LABEL := OPERATOR_NAME, ORIGINAL_TEMPLATE_LABEL := n.original]
  }

  function ClaimSelector(n: Naming): Labels {
    TemplateSelector(n)[AUTOSCALER_LABEL := n.autoscaler]
  }

  /** A claim, bound or pending, of the autoscaler that names the template as the one it came from. */
  predicate ClaimOf(n: Naming, claim: Claim, name: string) {
    && Selects(ClaimSelector(n), claim.labels)
    && TEMPLATE_NAME_LABEL in claim.labels && claim.labels[TEMPLATE_NAME_LABEL] == name
  }

  predicate Claimed(n: Naming, claims: seq<Claim>, name: string) {
    exists i :: 0 <= i < |claims| && ClaimOf(n, claims[i], name)
  }

  predicate Listed(n: Naming, templates: map<string, Template>, name: string) {
    name in templates && Selects(TemplateSelector(n), templates[name].labels)
  }

  // ---------- the operator's writes ----------

  function CurrentTemplate(a: Autoscaler, s: Cluster): string {
    if s.desired != "" then s.desired else a.naming.original
  }

  function NewTemplate(a: Autoscaler, generation: nat, base: Template, desired: ResourceConfiguration): Template {
    var n := a.naming;
    var name := n.TemplateName(generation);
    Template(
      map[MANAGED_BY_LABEL := OPERATOR_NAME, REVISION_LABEL := Decimal(generation),
          ORIGINAL_TEMPLATE_LABEL := n.original, TEMPLATE_NAME_LABEL := name, AUTOSCALER_LABEL := n.autoscaler],
      base.claimLabels[MANAGED_BY_LABEL := OPERATOR_NAME][TEMPLATE_NAME_LABEL := name]
                      [ORIGINAL_TEMPLATE_LABEL := n.original][AUTOSCALER_LABEL := n.autoscaler],
      Some(n.autoscaler),
      Written(base.requests, a.deviceClass, desired))
  }

  datatype PatchFailure = NoBase | NoRevision | NotChecked | NotDeleted | NoMatchingRequest | NotCreated

  datatype PatchResult = Patched(name: string) | Failed(failure: PatchFailure)

  /** patchResourceClaimTemplate: the templates afterwards and the name to use, or an error. */
  function PatchedTemplates(a: Autoscaler, s: Cluster, desired: ResourceConfiguration, fault: Fault)
    : (map<string, Template>, PatchResult)
  {
    var base := CurrentTemplate(a, s);
    var name := a.naming.TemplateName(s.workload.generation);
    if fault.BaseGetFails? || base !in s.templates then (s.templates, Failed(NoBase))
    else if fault.OwnerGetFails? then (s.templates, Failed(NoRevision))
    else if fault.CheckFails? then (s.templates, Failed(NotChecked))
    else if name in s.templates && Matches(s.templates[name].requests, a.deviceClass, desired) then
      (s.templates, Patched(name))
    else if name in s.templates && fault.DeleteFails? then (s.templates, Failed(NotDeleted))
    else
      var left := Without(s.templates, name);
      if TargetRequest(s.templates[base].requests, a.deviceClass).None? then
        (left, Failed(NoMatchingRequest))
      else if fault.CreateFails? then (left, Failed(NotCreated))
      else (left[name := NewTemplate(a, s.workload.generation, s.templates[base], desired)], Patched(name))
  }

  /** An update of the workload's spec; the API server counts the generation only when it differs. */
  function UpdatedWorkload(w: Workload, refs: seq<Reference>, replicas: int): Workload {
    if refs == w.refs && replicas == w.replicas then w else Workload(refs, replicas, w.generation + 1)
  }

  /** patchPodOwner after patchResourceClaimTemplate; the new name is not recorded yet. */
  function PatchedOwner(a: Autoscaler, s: Cluster, templates: map<string, Template>, name: string, replicas: int)
    : Cluster
  {
    s.(templates := templates,
       workload := UpdatedWorkload(s.workload, Retargeted(s.workload.refs, CurrentTemplate(a, s), name), replicas))
  }

  /** applyResourceChanges: a refused final status write is only logged, so the new name goes unrecorded. */
  function AfterResourceChange(a: Autoscaler, s: Cluster, desired: ResourceConfiguration, fault: Fault): Cluster {
    var (templates, result) := PatchedTemplates(a, s, desired, fault);
    if result.Failed? || fault.OwnerUpdateFails? then s.(templates := templates)
    else
      var patched := PatchedOwner(a, s, templates, result.name, desired.replicas);
      if fault.StatusWriteFails? then patched else patched.(desired := result.name, applied := Some(desired))
  }

  /** applyReplicaChanges: a patch from the original to the original. */
  function AfterReplicaChange(a: Autoscaler, s: Cluster, replicas: int, ok: bool): Cluster {
    var original := a.naming.original;
    if ok then s.(workload := UpdatedWorkload(s.workload, Retargeted(s.workload.refs, original, original), replicas))
    else s
  }

  /** CleanupOldResourceClaimTemplates: some deletes may fail. */
  function AfterCleanup(a: Autoscaler, s: Cluster, failing: set<string>): Cluster {
    s.(templates :=
         map name | name in s.templates
                    && (!Listed(a.naming, s.templates, name) || name == s.desired
                        || Claimed(a.naming, s.claims, name) || name in failing)
           :: s.templates[name])
  }

  /** The claim handlers act on claims labelled as managed by this autoscaler. */
  predicate Handled(a: Autoscaler, claim: Claim) {
    && MANAGED_BY_LABEL in claim.labels && claim.labels[MANAGED_BY_LABEL] == OPERATOR_NAME
    && AUTOSCALER_LABEL in claim.labels && claim.labels[AUTOSCALER_LABEL] == a.naming.autoscaler
  }

  /** handleResourceClaimUpdate for a claim that has just become bound. */
  function AfterBound(a: Autoscaler, s: Cluster, i: nat, failing: set<string>): Cluster
    requires i < |s.claims|
  {
    var t := s.(claims := s.claims[i := s.claims[i].(bound := true)]);
    if Handled(a, t.claims[i]) && !s.phase.Deleted? then AfterCleanup(a, t, failing) else t
  }

  /** The delete handler: the template of a deleted claim goes too, unless recorded or the original. */
  function AfterClaimDeleted(a: Autoscaler, s: Cluster, i: nat, deleteOk: bool): Cluster
    requires i < |s.claims|
  {
    var claim := s.claims[i];
    var t := s.(claims := s.claims[..i] + s.claims[i + 1..]);
    if Handled(a, claim) && TEMPLATE_NAME_LABEL in claim.labels && !s.phase.Deleted? && s.desired != ""
       && claim.labels[TEMPLATE_NAME_LABEL] !in {s.desired, a.naming.original} && deleteOk
    then t.(templates := Without(s.templates, claim.labels[TEMPLATE_NAME_LABEL])) else t
  }

  /** cleanupWorkload, run by the finalizer. */
  function AfterRestore(a: Autoscaler, s: Cluster, minReplicas: int): Cluster {
    s.(workload := UpdatedWorkload(s.workload, AllPointedAt(s.workload.refs, a.naming.original), minReplicas),
       phase := Restored)
  }

  /** One step; a step that is not enabled changes nothing. */
  function Next(a: Autoscaler, s: Cluster, step: Step): Cluster {
    match step
    case ResourceChange(desired, fault) => if s.phase.Active? then AfterResourceChange(a, s, desired, fault) else s
    case ReplicaChange(replicas, ok) => if s.phase.Active? then AfterReplicaChange(a, s, replicas, ok) else s
    case ClaimCreated(claim) => s.(claims := s.claims + [claim])
    case ClaimBound(i, failing) => if i < |s.claims| && !s.claims[i].bound then AfterBound(a, s, i, failing) else s
    case ClaimUnbound(i) => if i < |s.claims| then s.(claims := s.claims[i := s.claims[i].(bound := false)]) else s
    case ClaimDeleted(i, deleteOk) => if i < |s.claims| then AfterClaimDeleted(a, s, i, deleteOk) else s
    case WorkloadEdited(replicas) =>
      s.(workload := s.workload.(replicas := replicas, generation := s.workload.generation + 1))
    case RestoreWorkload(minReplicas, ok) => if ok && !s.phase.Deleted? then AfterRestore(a, s, minReplicas) else s
    case RemoveFinalizer => if s.phase.Restored? then s.(phase := Deleted) else s
    case CollectGarbage(name) =>
      if s.phase.Deleted? && name in s.templates && s.templates[name].owner == Some(a.naming.autoscaler)
      then s.(templates := Without(s.templates, name)) else s
  }

  function Run(a: Autoscaler, s: Cluster, steps: seq<Step>): Cluster
    decreases |steps|
  {
    if steps == [] then s else Run(a, Next(a, s, steps[0]), steps[1..])
  }

  // ---------- what every step keeps ----------

  /** As discovered: the original exists, is nobody's revision, and the workload refers to it. */
  predicate Discovered(a: Autoscaler, s: Cluster) {
    && a.naming.original in s.templates && Independent(a, s.templates[a.naming.original])
    && Some(a.naming.original) in s.workload.refs
    && s.desired == "" && s.phase.Active? && s.applied.None?
  }

  predicate Independent(a: Autoscaler, original: Template) {
    !Selects(TemplateSelector(a.naming), original.labels) && original.owner != Some(a.naming.autoscaler)
  }

  /** Names of revisions up to the last generation are this autoscaler's alone. */
  ghost predicate NamesReserved(a: Autoscaler, refs: seq<Reference>, last: nat) {
    a.naming.Separates(last) && forall g: nat :: g <= last ==> Some(a.naming.TemplateName(g)) !in refs
  }

  /** The recorded name belongs to an earlier generation. */
  ghost predicate RecordedEarlier(a: Autoscaler, s: Cluster) {
    s.desired != "" ==> exists g: nat :: g < s.workload.generation && s.desired == a.naming.TemplateName(g)
  }

  /** The recorded template exists and carries the configuration last applied. */
  predicate RecordedUsable(a: Autoscaler, s: Cluster) {
    s.desired != "" && !s.phase.Deleted? ==>
      && s.desired in s.templates && s.applied.Some?
      && (s.applied.value.Whole() ==> Matches(s.templates[s.desired].requests, a.deviceClass, s.applied.value))
  }

  /** The references are the initial ones with the original's positions repointed, or all restored. */
  predicate ReferencesTracked(a: Autoscaler, refs: seq<Reference>, s: Cluster) {
    s.workload.refs == if s.phase.Active? then Retargeted(refs, a.naming.original, CurrentTemplate(a, s))
                       else AllPointedAt(refs, a.naming.original)
  }

  ghost predicate Inv(a: Autoscaler, refs: seq<Reference>, original: Template, s: Cluster) {
    && Some(a.naming.original) in refs && Independent(a, original)
    && a.naming.original in s.templates && s.templates[a.naming.original] == original
    && RecordedEarlier(a, s) && RecordedUsable(a, s) && ReferencesTracked(a, refs, s)
  }

  /** The name for the current generation is neither recorded, nor the original, nor referred to. */
  lemma NameIsFresh(a: Autoscaler, refs: seq<Reference>, original: Template, s: Cluster, last: nat)
    requires Inv(a, refs, original, s) && NamesReserved(a, refs, last) && s.workload.generation <= last
    ensures var name := a.naming.TemplateName(s.workload.generation);
            && name != "" && name != s.desired && name != a.naming.original
            && Some(name) !in refs && Some(name) !in s.workload.refs
    ensures s.desired != "" ==> Some(s.desired) !in refs && s.desired != a.naming.original
  {
    var n := a.naming;
    var name := n.TemplateName(s.workload.generation);
    n.NamesDistinct(last, s.workload.generation, s.workload.generation);
    if s.desired != "" {
      var g: nat :| g < s.workload.generation && s.desired == n.TemplateName(g);
      n.NamesDistinct(last, g, s.workload.generation);
    }
    assert forall i :: 0 <= i < |refs| ==> refs[i] in refs;
  }

  /** Whatever fails, patching the template leaves every template but the current generation's alone. */
  lemma PatchTouchesOneName(a: Autoscaler, s: Cluster, desired: ResourceConfiguration, fault: Fault, k: string)
    requires k != a.naming.TemplateName(s.workload.generation)
    ensures var (templates, result) := PatchedTemplates(a, s, desired, fault);
            (k in templates <==> k in s.templates) && (k in s.templates ==> templates[k] == s.templates[k])
  {
  }

  /** What a template the check accepts holds: the GPUs, and compute and memory where it states them. */
  lemma MatchingHolds(requests: seq<DeviceRequest>, cls: string, config: ResourceConfiguration)
    requires Matches(requests, cls, config)
    ensures var v := Visited(requests, cls);
            && v != [] && v[0].count == config.gpusPerReplica
            && (v[0].capacity.Some? && COMPUTE in v[0].capacity.value ==>
                  v[0].capacity.value[COMPUTE] == config.requestedCompute)
            && (v[0].capacity.Some? && MEMORY in v[0].capacity.value ==>
                  v[0].capacity.value[MEMORY] == config.requestedMemoryGB * GIB)
  {
    TargetIsVisitedFirst(requests, cls);
  }

  /** A name returned is the current generation's, of an existing template fit for the configuration. */
  lemma PatchReturnsUsable(a: Autoscaler, s: Cluster, desired: ResourceConfiguration, fault: Fault)
    ensures var (templates, result) := PatchedTemplates(a, s, desired, fault);
            var name := a.naming.TemplateName(s.workload.generation);
            result.Patched? ==>
              && result.name == name && name in templates
              && (desired.Whole() ==> Matches(templates[name].requests, a.deviceClass, desired))
  {
    hide Matches, NewTemplate, Naming.TemplateName;
    var base := CurrentTemplate(a, s);
    if base in s.templates && TargetRequest(s.templates[base].requests, a.deviceClass).Some? && desired.Whole() {
      NewTemplateFits(a, s.workload.generation, s.templates[base], desired);
    }
  }

  lemma NewTemplateFits(a: Autoscaler, generation: nat, base: Template, desired: ResourceConfiguration)
    requires TargetRequest(base.requests, a.deviceClass).Some? && desired.Whole()
    ensures Matches(NewTemplate(a, generation, base, desired).requests, a.deviceClass, desired)
  {
    WrittenPassesCheck(base.requests, a.deviceClass, desired);
  }

  lemma ResourceChangeKeeps(a: Autoscaler, refs: seq<Reference>, original: Template, last: nat,
                            s: Cluster, desired: ResourceConfiguration, fault: Fault)
    requires Inv(a, refs, original, s) && s.phase.Active? && !fault.StatusWriteFails?
    requires NamesReserved(a, refs, last) && s.workload.generation <= last
    ensures Inv(a, refs, original, AfterResourceChange(a, s, desired, fault))
    ensures AfterResourceChange(a, s, desired, fault).workload.generation >= s.workload.generation
  {
    NameIsFresh(a, refs, original, s, last);
    PatchTouchesOneName(a, s, desired, fault, a.naming.original);
    PatchReturnsUsable(a, s, desired, fault);
    if s.desired != "" {
      PatchTouchesOneName(a, s, desired, fault, s.desired);
    }
    var t := AfterResourceChange(a, s, desired, fault);
    var (templates, result) := PatchedTemplates(a, s, desired, fault);
    hide PatchedTemplates, Matches;
    if result.Patched? && !fault.OwnerUpdateFails? {
      RetargetChain(refs, a.naming.original, CurrentTemplate(a, s), result.name);
      var i :| 0 <= i < |refs| && refs[i] == Some(a.naming.original);
      assert t.workload.refs[i] == Some(result.name) != s.workload.refs[i];
      assert t.workload.generation == s.workload.generation + 1;
    }
  }

  /** Deleting templates other than the recorded one and the original. */
  lemma DeletionsKeep(a: Autoscaler, refs: seq<Reference>, original: Template, s: Cluster, t: Cluster)
    requires Inv(a, refs, original, s)
    requires t == s.(templates := t.templates, claims := t.claims)
    requires forall k :: k in t.templates ==> k in s.templates && t.templates[k] == s.templates[k]
    requires a.naming.original in t.templates
    requires !s.phase.Deleted? && s.desired in s.templates ==> s.desired in t.templates
    ensures Inv(a, refs, original, t)
  {
  }

  /** Whatever a resource change wrote is recorded in the status. */
  predicate Records(step: Step) { step.ResourceChange? ==> !step.fault.StatusWriteFails? }

  lemma InvStep(a: Autoscaler, refs: seq<Reference>, original: Template, last: nat, s: Cluster, step: Step)
    requires Inv(a, refs, original, s) && Records(step)
    requires NamesReserved(a, refs, last) && s.workload.generation <= last
    ensures Inv(a, refs, original, Next(a, s, step))
    ensures Next(a, s, step).workload.generation >= s.workload.generation
  {
    hide Matches, Claimed, Selects, AfterResourceChange;
    var t := Next(a, s, step);
    match step {
      case ResourceChange(desired, fault) =>
        if s.phase.Active? { ResourceChangeKeeps(a, refs, original, last, s, desired, fault); }
      case ReplicaChange(replicas, ok) =>
        assert Retargeted(s.workload.refs, a.naming.original, a.naming.original) == s.workload.refs;
      case RestoreWorkload(minReplicas, ok) =>
        assert AllPointedAt(s.workload.refs, a.naming.original) == AllPointedAt(refs, a.naming.original);
      case WorkloadEdited(replicas) =>
      case RemoveFinalizer =>
      case _ => DeletionsKeep(a, refs, original, s, t);
    }
  }

  lemma {:induction false} InvRun(a: Autoscaler, refs: seq<Reference>, original: Template, s: Cluster, steps: seq<Step>)
    requires Inv(a, refs, original, s) && forall i :: 0 <= i < |steps| ==> Records(steps[i])
    requires NamesReserved(a, refs, Run(a, s, steps).workload.generation)
    ensures Inv(a, refs, original, Run(a, s, steps))
    decreases |steps|
  {
    if steps != [] {
      GenerationGrows(a, s, steps);
      InvStep(a, refs, original, Run(a, s, steps).workload.generation, s, steps[0]);
      InvRun(a, refs, original, Next(a, s, steps[0]), steps[1..]);
    }
  }

  lemma {:induction false} GenerationGrows(a: Autoscaler, s: Cluster, steps: seq<Step>)
    ensures s.workload.generation <= Run(a, s, steps).workload.generation
    decreases |steps|
  {
    if steps != [] {
      GenerationGrows(a, Next(a, s, steps[0]), steps[1..]);
    }
  }

  /**
   Over every run from discovery, with any failures but of the final status write: the original is never
   deleted nor changed; while the autoscaler is active the positions that first held it hold the recorded
   template, or the original if none is recorded, that template exists and fits the configuration last
   applied, and every other position is untouched; the name the next change would write is in use nowhere.
   */
  lemma LifecycleRuns(a: Autoscaler, s: Cluster, steps: seq<Step>)
    requires Discovered(a, s) && forall i :: 0 <= i < |steps| ==> Records(steps[i])
    requires NamesReserved(a, s.workload.refs, Run(a, s, steps).workload.generation)
    ensures var t, n := Run(a, s, steps), a.naming;
            && n.original in t.templates && t.templates[n.original] == s.templates[n.original]
            && |t.workload.refs| == |s.workload.refs|
            && (t.phase.Active? ==>
                  && CurrentTemplate(a, t) in t.templates
                  && (forall i :: 0 <= i < |s.workload.refs| ==>
                        t.workload.refs[i] == if s.workload.refs[i] == Some(n.original) then Some(CurrentTemplate(a, t))
                                              else s.workload.refs[i])
                  && (t.desired != "" ==> t.applied.Some?)
                  && (t.desired != "" && t.applied.value.Whole() ==>
                        var v := Visited(t.templates[t.desired].requests, a.deviceClass);
                        && v != [] && v[0].count == t.applied.value.gpusPerReplica
                        && (v[0].capacity.Some? && COMPUTE in v[0].capacity.value ==>
                              v[0].capacity.value[COMPUTE] == t.applied.value.requestedCompute)
                        && (v[0].capacity.Some? && MEMORY in v[0].capacity.value ==>
                              v[0].capacity.value[MEMORY] == t.applied.value.requestedMemoryGB * GIB)))
            && (!t.phase.Active? ==> OnlyTemplate(t.workload.refs, n.original))
            && n.TemplateName(t.workload.generation) !in {t.desired, n.original}
            && Some(n.TemplateName(t.workload.generation)) !in t.workload.refs
  {
    var refs := s.workload.refs;
    assert Retargeted(refs, a.naming.original, a.naming.original) == refs;
    InvRun(a, refs, s.templates[a.naming.original], s, steps);
    var t := Run(a, s, steps);
    NameIsFresh(a, refs, s.templates[a.naming.original], t, t.workload.generation);
    if t.phase.Active? && t.desired != "" && t.applied.value.Whole() {
      MatchingHolds(t.templates[t.desired].requests, a.deviceClass, t.applied.value);
    }
  }

  /**
   After any run, restoring with the recorded name gives back the references the workload had at
   discovery; restoring every template-based reference, as the finalizer does, gives them back exactly
   when each of them was to the original.
   */
  lemma RestoringAfterRuns(a: Autoscaler, s: Cluster, steps: seq<Step>, minReplicas: int)
    requires Discovered(a, s) && forall i :: 0 <= i < |steps| ==> Records(steps[i])
    requires NamesReserved(a, s.workload.refs, Run(a, s, steps).workload.generation)
    requires Run(a, s, steps).phase.Active?
    ensures var t, n := Run(a, s, steps), a.naming;
            && Retargeted(t.workload.refs, CurrentTemplate(a, t), n.original) == s.workload.refs
            && (Next(a, t, RestoreWorkload(minReplicas, true)).workload.refs == s.workload.refs
                <==> OnlyTemplate(s.workload.refs, n.original))
  {
    var refs, t, original := s.workload.refs, Run(a, s, steps), a.naming.original;
    assert Retargeted(refs, original, original) == refs;
    InvRun(a, refs, s.templates[original], s, steps);
    NameIsFresh(a, refs, s.templates[original], t, t.workload.generation);
    hide Inv, NamesReserved, Run, Discovered;
    assert t.workload.refs == Retargeted(refs, original, CurrentTemplate(a, t)) by {
      InvTracks(a, refs, s.templates[original], t);
    }
    RestoreByNameIff(refs, original, CurrentTemplate(a, t));
    RestoreAnyIff(refs, original, CurrentTemplate(a, t));
  }

  lemma InvTracks(a: Autoscaler, refs: seq<Reference>, original: Template, s: Cluster)
    requires Inv(a, refs, original, s)
    ensures ReferencesTracked(a, refs, s)
  {
  }

  // ---------- what single steps do ----------

  predicate Labelled(labels: Labels, key: string, value: string) { key in labels && labels[key] == value }

  /** No call fails that a resource change needs, and there is a fitting template or one can be written. */
  predicate Succeeds(a: Autoscaler, s: Cluster, desired: ResourceConfiguration, fault: Fault) {
    var base, name := CurrentTemplate(a, s), a.naming.TemplateName(s.workload.generation);
    && s.phase.Active? && base in s.templates
    && fault !in {BaseGetFails, OwnerGetFails, CheckFails, OwnerUpdateFails}
    && ((name in s.templates && Matches(s.templates[name].requests, a.deviceClass, desired))
        || (&& TargetRequest(s.templates[base].requests, a.deviceClass).Some? && fault != CreateFails
            && (name in s.templates ==> fault != DeleteFails)))
  }

  /** Exactly then a resource change moves references and replicas, and records the name unless that is refused. */
  lemma ResourceChangeSucceedsIff(a: Autoscaler, s: Cluster, desired: ResourceConfiguration, fault: Fault)
    ensures var t, name := Next(a, s, ResourceChange(desired, fault)), a.naming.TemplateName(s.workload.generation);
            if Succeeds(a, s, desired, fault) then
              && t.workload.replicas == desired.replicas && |t.workload.refs| == |s.workload.refs|
              && (forall i :: 0 <= i < |s.workload.refs| ==>
                    t.workload.refs[i] == if s.workload.refs[i] == Some(CurrentTemplate(a, s)) then Some(name)
                                          else s.workload.refs[i])
              && (t.desired, t.applied) == if fault == StatusWriteFails then (s.desired, s.applied)
                                           else (name, Some(desired))
            else t == s.(templates := t.templates)
  {
    hide Matches, Naming.TemplateName, NewTemplate;
  }

  /** Which replicas a step writes into the workload, if it writes any. */
  function ReplicasSet(a: Autoscaler, s: Cluster, step: Step): Option<int> {
    match step
    case ResourceChange(desired, fault) => if Succeeds(a, s, desired, fault) then Some(desired.replicas) else None
    case ReplicaChange(replicas, ok) => if ok && s.phase.Active? then Some(replicas) else None
    case WorkloadEdited(replicas) => Some(replicas)
    case RestoreWorkload(minReplicas, ok) => if ok && !s.phase.Deleted? then Some(minReplicas) else None
    case _ => None
  }

  /** A step leaves those replicas or the ones before, and counts the generation when the workload's spec changes. */
  lemma StepReplicas(a: Autoscaler, s: Cluster, step: Step)
    ensures var t := Next(a, s, step);
            && t.workload.replicas == (match ReplicasSet(a, s, step) case Some(r) => r case None => s.workload.replicas)
            && t.workload.generation == s.workload.generation +
                 (if step.WorkloadEdited? || t.workload.refs != s.workload.refs
                     || t.workload.replicas != s.workload.replicas
                  then 1 else 0)
  {
    if step.ResourceChange? {
      ResourceChangeSucceedsIff(a, s, step.desired, step.fault);
    }
    hide Succeeds, PatchedTemplates, Claimed, Selects;
  }

  /** Over every run the workload has the replicas of the last step that set any, or those it had at first. */
  lemma ReplicasOverRuns(a: Autoscaler, s: Cluster, steps: seq<Step>, i: nat)
    requires i <= |steps|
    requires forall j :: i <= j < |steps| ==> ReplicasSet(a, Run(a, s, steps[..j]), steps[j]).None?
    ensures i == 0 ==> Run(a, s, steps).workload.replicas == s.workload.replicas
    ensures i > 0 ==> match ReplicasSet(a, Run(a, s, steps[..i - 1]), steps[i - 1])
                      case Some(replicas) => Run(a, s, steps).workload.replicas == replicas
                      case None => true
  {
    UnsetKeepsReplicas(a, s, steps, i);
    hide Next, ReplicasSet;
    if i > 0 {
      var before := steps[..i];
      RunLast(a, s, before);
      assert before[..i - 1] == steps[..i - 1];
      StepReplicas(a, Run(a, s, steps[..i - 1]), steps[i - 1]);
    }
  }

  lemma {:induction false} UnsetKeepsReplicas(a: Autoscaler, s: Cluster, steps: seq<Step>, i: nat)
    requires i <= |steps|
    requires forall j :: i <= j < |steps| ==> ReplicasSet(a, Run(a, s, steps[..j]), steps[j]).None?
    ensures Run(a, s, steps).workload.replicas == Run(a, s, steps[..i]).workload.replicas
    decreases |steps|
  {
    var n := |steps|;
    hide Next, ReplicasSet;
    if i < n {
      RunLast(a, s, steps);
      StepReplicas(a, Run(a, s, steps[..n - 1]), steps[n - 1]);
      assert forall j :: 0 <= j < n ==> steps[..n - 1][..j] == steps[..j];
      UnsetKeepsReplicas(a, s, steps[..n - 1], i);
    } else {
      assert steps[..n] == steps;
    }
  }

  lemma {:induction false} RunLast(a: Autoscaler, s: Cluster, steps: seq<Step>)
    requires steps != []
    ensures Run(a, s, steps) == Next(a, Run(a, s, steps[..|steps| - 1]), steps[|steps| - 1])
    decreases |steps|
  {
    hide Next;
    if |steps| > 1 {
      RunLast(a, Next(a, s, steps[0]), steps[1..]);
      assert steps[1..][..|steps| - 2] == steps[..|steps| - 1][1..];
    } else {
      assert steps[1..] == [] == steps[..0];
    }
  }

  /** A claim that names the template as its own and carries the labels of this autoscaler. */
  predicate NamesTemplate(a: Autoscaler, labels: Labels, name: string) {
    && Labelled(labels, MANAGED_BY_LABEL, OPERATOR_NAME) && Labelled(labels, ORIGINAL_TEMPLATE_LABEL, a.naming.original)
    && Labelled(labels, AUTOSCALER_LABEL, a.naming.autoscaler) && Labelled(labels, TEMPLATE_NAME_LABEL, name)
  }

  /** Exactly when a step takes a template away. */
  lemma RemovedIff(a: Autoscaler, s: Cluster, step: Step, name: string)
    requires name in s.templates
    ensures name !in Next(a, s, step).templates <==>
              match step
              case ResourceChange(desired, fault) =>
                // replaced, but the new one is not created
                && s.phase.Active? && CurrentTemplate(a, s) in s.templates
                && name == a.naming.TemplateName(s.workload.generation)
                && !Matches(s.templates[name].requests, a.deviceClass, desired)
                && fault !in {BaseGetFails, OwnerGetFails, CheckFails, DeleteFails}
                && (fault == CreateFails
                    || TargetRequest(s.templates[CurrentTemplate(a, s)].requests, a.deviceClass).None?)
              case ClaimBound(i, failing) =>
                && i < |s.claims| && !s.claims[i].bound && !s.phase.Deleted?
                && Labelled(s.claims[i].labels, MANAGED_BY_LABEL, OPERATOR_NAME)
                && Labelled(s.claims[i].labels, AUTOSCALER_LABEL, a.naming.autoscaler)
                && Labelled(s.templates[name].labels, MANAGED_BY_LABEL, OPERATOR_NAME)
                && Labelled(s.templates[name].labels, ORIGINAL_TEMPLATE_LABEL, a.naming.original)
                && name != s.desired && name !in failing
                && forall j :: 0 <= j < |s.claims| ==> !NamesTemplate(a, s.claims[j].labels, name)
              case ClaimDeleted(i, deleteOk) =>
                && i < |s.claims| && deleteOk && !s.phase.Deleted?
                && Labelled(s.claims[i].labels, MANAGED_BY_LABEL, OPERATOR_NAME)
                && Labelled(s.claims[i].labels, AUTOSCALER_LABEL, a.naming.autoscaler)
                && Labelled(s.claims[i].labels, TEMPLATE_NAME_LABEL, name)
                && s.desired != "" && name != s.desired && name != a.naming.original
              case CollectGarbage(collected) =>
                collected == name && s.phase.Deleted? && s.templates[name].owner == Some(a.naming.autoscaler)
              case _ => false
  {
    hide Matches, Naming.TemplateName, NewTemplate;
    if step.ClaimBound? && step.index < |s.claims| {
      BoundClaimsAlike(a.naming, s.claims, step.index, name);
      ClaimedIff(a, s.claims, name);
      hide Claimed;
    }
  }

  /** Binding a claim changes no label. */
  lemma BoundClaimsAlike(n: Naming, claims: seq<Claim>, i: nat, name: string)
    requires i < |claims|
    ensures Claimed(n, claims[i := claims[i].(bound := true)], name) <==> Claimed(n, claims, name)
  {
    var after := claims[i := claims[i].(bound := true)];
    assert forall j :: 0 <= j < |claims| ==> after[j].labels == claims[j].labels;
    if Claimed(n, claims, name) {
      var j :| 0 <= j < |claims| && ClaimOf(n, claims[j], name);
      assert ClaimOf(n, after[j], name);
    }
    if Claimed(n, after, name) {
      var j :| 0 <= j < |claims| && ClaimOf(n, after[j], name);
      assert ClaimOf(n, claims[j], name);
    }
  }

  lemma ClaimedIff(a: Autoscaler, claims: seq<Claim>, name: string)
    ensures Claimed(a.naming, claims, name) <==>
              exists j :: 0 <= j < |claims| && NamesTemplate(a, claims[j].labels, name)
  {
    forall j | 0 <= j < |claims|
      ensures ClaimOf(a.naming, claims[j], name) <==> NamesTemplate(a, claims[j].labels, name)
    {
      SelectsIff(a, claims[j].labels);
    }
  }

  lemma SelectsIff(a: Autoscaler, labels: Labels)
    ensures Selects(TemplateSelector(a.naming), labels) <==>
              && Labelled(labels, MANAGED_BY_LABEL, OPERATOR_NAME)
              && Labelled(labels, ORIGINAL_TEMPLATE_LABEL, a.naming.original)
    ensures Selects(ClaimSelector(a.naming), labels) <==>
              && Labelled(labels, MANAGED_BY_LABEL, OPERATOR_NAME)
              && Labelled(labels, ORIGINAL_TEMPLATE_LABEL, a.naming.original)
              && Labelled(labels, AUTOSCALER_LABEL, a.naming.autoscaler)
  {
    var t, c := TemplateSelector(a.naming), ClaimSelector(a.naming);
    assert MANAGED_BY_LABEL in t && ORIGINAL_TEMPLATE_LABEL in t;
    assert MANAGED_BY_LABEL in c && ORIGINAL_TEMPLATE_LABEL in c && AUTOSCALER_LABEL in c;
  }

  /** Exactly when a step makes a template, and what it then is. */
  lemma CreatedIff(a: Autoscaler, s: Cluster, step: Step, name: string)
    requires name !in s.templates
    ensures var t := Next(a, s, step).templates;
            && (name in t <==>
                  && step.ResourceChange? && s.phase.Active? && name == a.naming.TemplateName(s.workload.generation)
                  && CurrentTemplate(a, s) in s.templates
                  && TargetRequest(s.templates[CurrentTemplate(a, s)].requests, a.deviceClass).Some?
                  && step.fault !in {BaseGetFails, OwnerGetFails, CheckFails, CreateFails})
            && (name in t ==>
                  && t[name].requests
                     == Written(s.templates[CurrentTemplate(a, s)].requests, a.deviceClass, step.desired)
                  && t[name].owner == Some(a.naming.autoscaler)
                  && NamesTemplate(a, t[name].labels, name) && NamesTemplate(a, t[name].claimLabels, name)
                  && Labelled(t[name].labels, REVISION_LABEL, Decimal(s.workload.generation)))
  {
    if step.ResourceChange? && CurrentTemplate(a, s) in s.templates {
      NewTemplateIs(a, s.workload.generation, s.templates[CurrentTemplate(a, s)], step.desired);
    }
    hide Matches, Naming.TemplateName, NewTemplate, Labelled, NamesTemplate, Claimed, Selects, Handled;
  }

  lemma NewTemplateIs(a: Autoscaler, generation: nat, base: Template, desired: ResourceConfiguration)
    ensures var t, name := NewTemplate(a, generation, base, desired), a.naming.TemplateName(generation);
            && t.requests == Written(base.requests, a.deviceClass, desired) && t.owner == Some(a.naming.autoscaler)
            && NamesTemplate(a, t.labels, name) && NamesTemplate(a, t.claimLabels, name)
            && Labelled(t.labels, REVISION_LABEL, Decimal(generation))
  {
    hide Naming.TemplateName, Decimal, Written;
  }

  /** Claims come and go by their own steps only, and keep their labels meanwhile. */
  lemma ClaimsStep(a: Autoscaler, s: Cluster, step: Step)
    ensures var t := Next(a, s, step);
            match step
            case ClaimCreated(claim) => t.claims == s.claims + [claim]
            case ClaimDeleted(i, _) =>
              i < |s.claims| ==> multiset(t.claims) == multiset(s.claims) - multiset{s.claims[i]}
            case ClaimBound(j, _) =>
              |t.claims| == |s.claims| && forall i :: 0 <= i < |s.claims| ==>
                t.claims[i] == Claim(s.claims[i].labels, s.claims[i].bound || i == j)
            case ClaimUnbound(j) =>
              |t.claims| == |s.claims| && forall i :: 0 <= i < |s.claims| ==>
                t.claims[i] == Claim(s.claims[i].labels, s.claims[i].bound && i != j)
            case _ => t.claims == s.claims
  {
    hide Matches, Naming.TemplateName, NewTemplate, Claimed, Selects, Handled;
    if step.ClaimDeleted? && step.index < |s.claims| {
      assert s.claims == s.claims[..step.index] + [s.claims[step.index]] + s.claims[step.index + 1..];
    }
  }

  // ---------- what the next decision reads ----------

  /** The requests of the original, and of revisions, are read by their first match, which revisions state in full. */
  ghost predicate Readable(a: Autoscaler, last: nat, templates: map<string, Template>) {
    && a.naming.original in templates && ReadsFirst(templates[a.naming.original].requests, a.deviceClass)
    && forall g: nat :: g <= last && a.naming.TemplateName(g) in templates ==>
         FullyRead(templates[a.naming.TemplateName(g)].requests, a.deviceClass)
  }

  /** A template whose first match is all that is read, and states both capacities. */
  predicate FullyRead(requests: seq<DeviceRequest>, cls: string) {
    && ReadsFirst(requests, cls) && Visited(requests, cls)[0].capacity.Some?
    && COMPUTE in Visited(requests, cls)[0].capacity.value && MEMORY in Visited(requests, cls)[0].capacity.value
  }

  lemma WrittenIsFullyRead(requests: seq<DeviceRequest>, cls: string, desired: ResourceConfiguration)
    requires ReadsFirst(requests, cls)
    ensures FullyRead(Written(requests, cls, desired), cls)
  {
    VisitedAfterWrite(requests, cls, desired);
  }

  lemma FullyReadMatches(requests: seq<DeviceRequest>, cls: string, config: ResourceConfiguration)
    requires FullyRead(requests, cls) && config.Whole() && Matches(requests, cls, config)
    ensures ReadsExactly(ReadBack(requests, cls), config)
  {
    MatchingHolds(requests, cls, config);
    MatchesIffReads(requests, cls, config);
    var v := Visited(requests, cls);
    AbsorbAllCons(NOTHING_READ, v[0], v[1..]);
    assert v == [v[0]] + v[1..];
    SilentAbsorbs(Absorb(NOTHING_READ, v[0]), v[1..]);
  }

  lemma ReadableStep(a: Autoscaler, refs: seq<Reference>, original: Template, last: nat, s: Cluster, step: Step)
    requires Inv(a, refs, original, s) && Inv(a, refs, original, Next(a, s, step)) && s.workload.generation <= last
    requires Readable(a, last, s.templates)
    ensures Readable(a, last, Next(a, s, step).templates)
  {
    var t, current := Next(a, s, step).templates, CurrentTemplate(a, s);
    forall g: nat | g <= last && a.naming.TemplateName(g) in t
      ensures FullyRead(t[a.naming.TemplateName(g)].requests, a.deviceClass)
    {
      var name := a.naming.TemplateName(g);
      KeptOrWritten(a, s, step, name);
      if !(name in s.templates && t[name] == s.templates[name]) {
        CurrentIsRead(a, refs, original, last, s);
        WrittenIsFullyRead(s.templates[current].requests, a.deviceClass, step.desired);
      }
    }
    hide Next, Matches, FullyRead, ReadsFirst;
  }

  lemma CurrentIsRead(a: Autoscaler, refs: seq<Reference>, original: Template, last: nat, s: Cluster)
    requires Inv(a, refs, original, s) && Readable(a, last, s.templates) && s.workload.generation <= last
    requires CurrentTemplate(a, s) in s.templates
    ensures ReadsFirst(s.templates[CurrentTemplate(a, s)].requests, a.deviceClass)
    ensures s.desired != "" ==> FullyRead(s.templates[s.desired].requests, a.deviceClass)
  {
    hide Matches, ReadsFirst, RecordedUsable, ReferencesTracked;
  }

  /** A template after a step is the one before, or one written on top of the current one. */
  lemma KeptOrWritten(a: Autoscaler, s: Cluster, step: Step, name: string)
    requires name in Next(a, s, step).templates
    ensures var t, current := Next(a, s, step).templates, CurrentTemplate(a, s);
            || (name in s.templates && t[name] == s.templates[name])
            || (step.ResourceChange? && s.phase.Active? && current in s.templates
                && t[name].requests == Written(s.templates[current].requests, a.deviceClass, step.desired))
  {
    hide Matches, Naming.TemplateName, Claimed, Selects, Handled, Written;
  }

  lemma {:induction false} ReadableRun(a: Autoscaler, refs: seq<Reference>, original: Template, last: nat, s: Cluster,
                                       steps: seq<Step>)
    requires Inv(a, refs, original, s) && forall i :: 0 <= i < |steps| ==> Records(steps[i])
    requires NamesReserved(a, refs, last) && Run(a, s, steps).workload.generation <= last
    requires Readable(a, last, s.templates)
    ensures Inv(a, refs, original, Run(a, s, steps)) && Readable(a, last, Run(a, s, steps).templates)
    decreases |steps|
  {
    if steps != [] {
      GenerationGrows(a, s, steps);
      GenerationGrows(a, Next(a, s, steps[0]), steps[1..]);
      InvStep(a, refs, original, last, s, steps[0]);
      ReadableStep(a, refs, original, last, s, steps[0]);
      hide Inv, Readable, Next, NamesReserved;
      ReadableRun(a, refs, original, last, Next(a, s, steps[0]), steps[1..]);
    }
  }

  /**
   Over every run from an original read by its first match, with no leftovers under the names of revisions: what the
   next decision reads from the recorded template is exactly the configuration last applied.
   */
  lemma AppliedIsRead(a: Autoscaler, s: Cluster, steps: seq<Step>)
    requires Discovered(a, s) && forall i :: 0 <= i < |steps| ==> Records(steps[i])
    requires NamesReserved(a, s.workload.refs, Run(a, s, steps).workload.generation)
    requires ReadsFirst(s.templates[a.naming.original].requests, a.deviceClass)
    requires forall g: nat :: g <= Run(a, s, steps).workload.generation ==> a.naming.TemplateName(g) !in s.templates
    ensures var t := Run(a, s, steps);
            t.desired != "" && !t.phase.Deleted? ==>
              && t.desired in t.templates && t.applied.Some?
              && (t.applied.value.Whole() ==>
                    ReadsExactly(ReadBack(t.templates[t.desired].requests, a.deviceClass), t.applied.value))
  {
    var refs, t, original := s.workload.refs, Run(a, s, steps), s.templates[a.naming.original];
    assert Retargeted(refs, a.naming.original, a.naming.original) == refs;
    ReadableRun(a, refs, original, t.workload.generation, s, steps);
    if t.desired != "" && !t.phase.Deleted? {
      var requests := t.templates[t.desired].requests;
      CurrentIsRead(a, refs, original, t.workload.generation, t);
      hide FullyRead, ReadsFirst, Matches, ReadsExactly;
      if t.applied.value.Whole() {
        FullyReadMatches(requests, a.deviceClass, t.applied.value);
      }
    }
  }

  // ---------- when the new name is not recorded ----------

  /** Nothing the operator would repoint is left: neither the original, nor the recorded name, nor a name to come. */
  ghost predicate Frozen(a: Autoscaler, refs: seq<Reference>, last: nat, s: Cluster) {
    s.phase.Active? ==>
      && s.workload.refs == refs
      && Some(a.naming.original) !in refs && (s.desired != "" ==> Some(s.desired) !in refs)
      && forall g: nat :: s.workload.generation <= g <= last ==> Some(a.naming.TemplateName(g)) !in refs
  }

  /** A resource change whose final status write fails leaves the workload frozen on the unrecorded name. */
  lemma UnrecordedIsFrozen(a: Autoscaler, refs: seq<Reference>, original: Template, last: nat, s: Cluster,
                           desired: ResourceConfiguration)
    requires Inv(a, refs, original, s) && s.phase.Active?
    requires NamesReserved(a, refs, last) && s.workload.generation < last
    requires PatchedTemplates(a, s, desired, StatusWriteFails).1.Patched?
    ensures var t := AfterResourceChange(a, s, desired, StatusWriteFails);
            && t.workload.refs == Retargeted(refs, a.naming.original, a.naming.TemplateName(s.workload.generation))
            && Frozen(a, t.workload.refs, last, t)
  {
    NameIsFresh(a, refs, original, s, last);
    PatchReturnsUsable(a, s, desired, StatusWriteFails);
    var t := AfterResourceChange(a, s, desired, StatusWriteFails);
    var name := a.naming.TemplateName(s.workload.generation);
    hide PatchedTemplates, Matches, Naming.TemplateName, Inv;
    RetargetedNames(refs, a.naming.original, name);
    assert t.workload.refs == Retargeted(refs, a.naming.original, name) by {
      InvTracks(a, refs, original, s);
      RetargetChain(refs, a.naming.original, CurrentTemplate(a, s), name);
    }
    assert Some(a.naming.original) in refs by { InvRefers(a, refs, original, s); }
    assert t.workload.refs != s.workload.refs;
    forall g: nat | t.workload.generation <= g <= last
      ensures Some(a.naming.TemplateName(g)) !in t.workload.refs
    {
      a.naming.NamesDistinct(last, g, s.workload.generation);
    }
  }

  lemma InvRefers(a: Autoscaler, refs: seq<Reference>, original: Template, s: Cluster)
    requires Inv(a, refs, original, s)
    ensures Some(a.naming.original) in refs
  {
  }

  lemma RetargetedNames(refs: seq<Reference>, from: string, to: string)
    ensures forall x :: x in Retargeted(refs, from, to) ==> x == Some(to) || (x in refs && x != Some(from))
    ensures Some(from) in refs ==> Some(to) in Retargeted(refs, from, to)
  {
    var r := Retargeted(refs, from, to);
    forall i | 0 <= i < |r|
      ensures r[i] == Some(to) || (r[i] in refs && r[i] != Some(from))
    {
      assert refs[i] in refs;
    }
    if Some(from) in refs {
      var i :| 0 <= i < |refs| && refs[i] == Some(from);
      assert r[i] == Some(to);
    }
  }

  lemma FrozenStep(a: Autoscaler, refs: seq<Reference>, last: nat, s: Cluster, step: Step)
    requires Frozen(a, refs, last, s) && Next(a, s, step).workload.generation <= last
    ensures Frozen(a, refs, last, Next(a, s, step))
  {
  }

  /** Until the finalizer runs, no later resource or replica change moves any reference, whatever is recorded then. */
  lemma {:induction false} FrozenRuns(a: Autoscaler, refs: seq<Reference>, last: nat, s: Cluster, steps: seq<Step>)
    requires Frozen(a, refs, last, s) && Run(a, s, steps).workload.generation <= last
    ensures Frozen(a, refs, last, Run(a, s, steps))
    ensures Run(a, s, steps).phase.Active? ==> Run(a, s, steps).workload.refs == refs
    decreases |steps|
  {
    if steps != [] {
      GenerationGrows(a, Next(a, s, steps[0]), steps[1..]);
      FrozenStep(a, refs, last, s, steps[0]);
      FrozenRuns(a, refs, last, Next(a, s, steps[0]), steps[1..]);
    }
  }

  predicate OriginalIntact(a: Autoscaler, original: Template, s: Cluster) {
    a.naming.original in s.templates && s.templates[a.naming.original] == original
  }

  lemma OriginalStep(a: Autoscaler, original: Template, s: Cluster, step: Step)
    requires OriginalIntact(a, original, s) && Independent(a, original) && a.naming.Separates(s.workload.generation)
    ensures OriginalIntact(a, original, Next(a, s, step))
  {
    hide Matches, Claimed, Naming.TemplateName;
    if step.ResourceChange? {
      PatchTouchesOneName(a, s, step.desired, step.fault, a.naming.original);
      hide PatchedTemplates;
    }
  }

  /** Even then, over every run, the original is neither deleted nor changed. */
  lemma {:induction false} OriginalSurvives(a: Autoscaler, original: Template, s: Cluster, steps: seq<Step>)
    requires OriginalIntact(a, original, s) && Independent(a, original)
    requires a.naming.Separates(Run(a, s, steps).workload.generation)
    ensures OriginalIntact(a, original, Run(a, s, steps))
    decreases |steps|
  {
    if steps != [] {
      GenerationGrows(a, s, steps);
      OriginalStep(a, original, s, steps[0]);
      OriginalSurvives(a, original, Next(a, s, steps[0]), steps[1..]);
    }
  }

  // ---------- cleanup ----------

  /**
   One pass leaves, of the templates made for the original, exactly the recorded one, those with a bound
   or pending claim and those whose delete failed; and it changes nothing else.
   */
  lemma CleanupLeaves(a: Autoscaler, s: Cluster, failing: set<string>, name: string)
    ensures var t := AfterCleanup(a, s, failing);
            && (Listed(a.naming, t.templates, name)
                <==> Listed(a.naming, s.templates, name)
                     && (name == s.desired || Claimed(a.naming, s.claims, name) || name in failing))
            && (name in s.templates && !Listed(a.naming, s.templates, name) ==> name in t.templates)
            && AfterCleanup(a, t, failing) == t
  {
  }

  function NamedByClaims(n: Naming, claims: seq<Claim>): set<string> {
    set i | 0 <= i < |claims| && TEMPLATE_NAME_LABEL in claims[i].labels :: claims[i].labels[TEMPLATE_NAME_LABEL]
  }

  lemma {:induction false} FewNamesInClaims(n: Naming, claims: seq<Claim>)
    ensures |NamedByClaims(n, claims)| <= |claims|
  {
    if claims != [] {
      var last := |claims| - 1;
      FewNamesInClaims(n, claims[..last]);
      var more := if TEMPLATE_NAME_LABEL in claims[last].labels then {claims[last].labels[TEMPLATE_NAME_LABEL]} else {};
      assert NamedByClaims(n, claims) == NamedByClaims(n, claims[..last]) + more;
    }
  }

  /** Templates do not pile up: a pass whose deletes succeed leaves at most one more than there are claims. */
  lemma CleanupBoundsTemplates(a: Autoscaler, s: Cluster)
    ensures var t := AfterCleanup(a, s, {});
            |set name | name in t.templates && Listed(a.naming, t.templates, name)| <= |s.claims| + 1
  {
    var t := AfterCleanup(a, s, {});
    var kept := set name | name in t.templates && Listed(a.naming, t.templates, name);
    var named := NamedByClaims(a.naming, s.claims);
    forall name | name in kept
      ensures name in named + {s.desired}
    {
      CleanupLeaves(a, s, {}, name);
    }
    FewNamesInClaims(a.naming, s.claims);
    SubsetSize(kept, named + {s.desired});
  }

  lemma {:induction false} SubsetSize<T>(small: set<T>, large: set<T>)
    requires small <= large
    ensures |small| <= |large|
  {
    if small != {} {
      var x :| x in small;
      SubsetSize(small - {x}, large - {x});
    }
  }

  /** The labels a new template hands to its claims are the ones cleanup looks for. */
  lemma GeneratedClaimsProtect(a: Autoscaler, generation: nat, base: Template, desired: ResourceConfiguration,
                               bound: bool)
    ensures var template := NewTemplate(a, generation, base, desired);
            && ClaimOf(a.naming, Claim(template.claimLabels, bound), a.naming.TemplateName(generation))
            && Selects(TemplateSelector(a.naming), template.labels)
  {
  }

  /**
   Why the status write belongs to the same step: between the workload patch and that write, a cleanup
   pass deletes the template the workload has just been pointed at, unless a claim of it exists already
   or the delete fails.
   */
  lemma CleanupBeforeRecording(a: Autoscaler, refs: seq<Reference>, original: Template, s: Cluster,
                               desired: ResourceConfiguration, failing: set<string>)
    requires Inv(a, refs, original, s) && s.phase.Active?
    requires NamesReserved(a, refs, s.workload.generation)
    requires a.naming.TemplateName(s.workload.generation) !in s.templates
    requires TargetRequest(s.templates[CurrentTemplate(a, s)].requests, a.deviceClass).Some?
    ensures var (templates, result) := PatchedTemplates(a, s, desired, NoFault);
            result.Patched? &&
            var patched := PatchedOwner(a, s, templates, result.name, desired.replicas);
            && Some(result.name) in patched.workload.refs
            && (result.name in AfterCleanup(a, patched, failing).templates
                <==> Claimed(a.naming, s.claims, result.name) || result.name in failing)
  {
    NameIsFresh(a, refs, original, s, s.workload.generation);
    var name := a.naming.TemplateName(s.workload.generation);
    var (templates, result) := PatchedTemplates(a, s, desired, NoFault);
    GeneratedClaimsProtect(a, s.workload.generation, s.templates[CurrentTemplate(a, s)], desired, true);
    var patched := PatchedOwner(a, s, templates, name, desired.replicas);
    var i :| 0 <= i < |refs| && refs[i] == Some(a.naming.original);
    assert patched.workload.refs[i] == Some(name);
    assert Listed(a.naming, patched.templates, name);
  }
}
