/**
 The operator's writes to the cluster as they happen: objects are fetched, changed in place and written
 back one call at a time. Every method is shown to be one transition of TemplateLifecycle.
 */
module ClusterOperator {
  import opened Wrappers
  import opened DeviceRequests
  import opened PodClaims
  import opened TemplateNames
  import opened TemplateLifecycle

  class ClusterOperator {
    var templates: map<string, Template>
    var claims: seq<Claim>
    var workload: Workload
    var desired: string
    var phase: Phase
    ghost var applied: Option<ResourceConfiguration>

    ghost function Current(): Cluster
      reads this
    {
      Cluster(templates, claims, workload, desired, phase, applied)
    }

    /** A cluster as found, with no template recorded. */
    constructor (templates: map<string, Template>, claims: seq<Claim>, workload: Workload)
      ensures Current() == Cluster(templates, claims, workload, "", Active, None)
    {
      this.templates, this.claims, this.workload := templates, claims, workload;
      desired, phase, applied := "", Active, None;
    }

    /** A copy of the workload's pod template, to be changed before an update. */
    method FetchPodTemplate() returns (pod: PodTemplate)
      ensures fresh(pod) && fresh(pod.claims) && pod.claims[..] == workload.refs
    {
      var refs := workload.refs;
      var copy := new Reference[|refs|](i requires 0 <= i < |refs| => refs[i]);
      pod := new PodTemplate(copy);
    }

    /** resourceclaim_handler.go:128-321. */
    method PatchResourceClaimTemplate(a: Autoscaler, config: ResourceConfiguration, fault: Fault)
      returns (result: PatchResult)
      modifies this`templates
      ensures (templates, result) == PatchedTemplates(a, old(Current()), config, fault)
    {
      var baseName := if desired != "" then desired else a.naming.original;
      if fault.BaseGetFails? || baseName !in templates {
        return Failed(NoBase);
      }
      var base := templates[baseName];
      if fault.OwnerGetFails? {
        return Failed(NoRevision);
      }
      var name := a.naming.TemplateName(workload.generation);
      if fault.CheckFails? {
        return Failed(NotChecked);
      }
      if name in templates {
        var existing := new ResourceClaimTemplate(templates[name].requests);
        var matches := existing.MatchesDesiredConfig(a.deviceClass, config);
        if matches {
          return Patched(name);
        }
        if fault.DeleteFails? {
          return Failed(NotDeleted);
        }
      }
      templates := Without(templates, name);
      var created := new ResourceClaimTemplate(base.requests);
      var updated := created.UpdateRequests(a.deviceClass, config);
      if !updated {
        return Failed(NoMatchingRequest);
      }
      if fault.CreateFails? {
        return Failed(NotCreated);
      }
      var n := a.naming;
      var labels := map[
        MANAGED_BY_LABEL := OPERATOR_NAME, REVISION_LABEL := Decimal(workload.generation),
        ORIGINAL_TEMPLATE_LABEL := n.original, TEMPLATE_NAME_LABEL := name, AUTOSCALER_LABEL := n.autoscaler];
      var claimLabels := base.claimLabels;
      claimLabels := claimLabels[MANAGED_BY_LABEL := OPERATOR_NAME];
      claimLabels := claimLabels[TEMPLATE_NAME_LABEL := name];
      claimLabels := claimLabels[ORIGINAL_TEMPLATE_LABEL := n.original];
      claimLabels := claimLabels[AUTOSCALER_LABEL := n.autoscaler];
      templates := templates[name := Template(labels, claimLabels, Some(n.autoscaler), created.requests)];
      return Patched(name);
    }

    /** resourceclaim_handler.go:404-505: the copy is changed, then written unless the update fails. */
    method PatchPodOwner(from: string, to: string, replicas: int, ok: bool)
      modifies this`workload
      ensures workload == if ok then UpdatedWorkload(old(workload), Retargeted(old(workload).refs, from, to), replicas)
                          else old(workload)
    {
      var pod := FetchPodTemplate();
      var _ := pod.UpdateResourceClaims(from, to);
      if ok {
        workload := UpdatedWorkload(workload, pod.claims[..], replicas);
      }
    }

    /** scaler.go:517-554, the final status write may be refused. */
    method ApplyResourceChanges(a: Autoscaler, config: ResourceConfiguration, fault: Fault)
      requires phase.Active?
      modifies this
      ensures Current() == Next(a, old(Current()), ResourceChange(config, fault))
    {
      var current := if desired != "" then desired else a.naming.original;
      var result := PatchResourceClaimTemplate(a, config, fault);
      match result {
        case Failed(_) =>
        case Patched(name) =>
          PatchPodOwner(current, name, config.replicas, !fault.OwnerUpdateFails?);
          if !fault.OwnerUpdateFails? && !fault.StatusWriteFails? {
            desired := name;
            applied := Some(config);
          }
      }
    }

    /** scaler.go:668-703. */
    method ApplyReplicaChanges(a: Autoscaler, replicas: int, ok: bool)
      requires phase.Active?
      modifies this
      ensures Current() == Next(a, old(Current()), ReplicaChange(replicas, ok))
    {
      PatchPodOwner(a.naming.original, a.naming.original, replicas, ok);
    }

    /** resourceclaim_handler.go:591-610: the names claims of the autoscaler carry, bound and pending apart. */
    method ClaimedNames(a: Autoscaler) returns (bound: set<string>, pending: set<string>)
      ensures forall name :: name in bound + pending <==> Claimed(a.naming, claims, name)
    {
      bound, pending := {}, {};
      hide NamesUpTo;
      NoNames(a.naming, claims);
      assert bound + pending == {};
      for i := 0 to |claims|
        invariant NamesUpTo(a.naming, claims, i, bound + pending)
      {
        var claim := claims[i];
        ghost var names := bound + pending;
        if Selects(ClaimSelector(a.naming), claim.labels) && TEMPLATE_NAME_LABEL in claim.labels {
          var name := claim.labels[TEMPLATE_NAME_LABEL];
          if claim.bound {
            bound := bound + {name};
          } else {
            pending := pending + {name};
          }
          assert bound + pending == names + {name};
        }
        OneMoreClaim(a.naming, claims, i, names, bound + pending);
      }
      AllNames(a.naming, claims, bound + pending);
    }

    /** resourceclaim_handler.go:554-636: whatever order the templates are listed in, the unclaimed others go. */
    method CleanupOldResourceClaimTemplates(a: Autoscaler, failing: set<string>)
      modifies this`templates
      ensures Current() == AfterCleanup(a, old(Current()), failing)
    {
      ghost var before := Current();
      var bound, pending := ClaimedNames(a);
      var listed := set name | name in templates && Listed(a.naming, templates, name);
      var remaining := listed;
      ghost var deleted: set<string> := {};
      while remaining != {}
        invariant remaining <= listed && deleted <= listed - remaining
        invariant forall name :: name in listed - remaining ==>
                    (name in deleted <==> Doomed(name, desired, bound + pending, failing))
        invariant templates == before.templates - deleted
      {
        var name :| name in remaining;
        remaining := remaining - {name};
        if name != desired && name !in bound && name !in pending {
          if name !in failing {
            templates := templates - {name};
            deleted := deleted + {name};
          }
        }
      }
      CleanedUp(a, before, failing, listed, deleted, bound + pending);
    }

    /** resourceclaimautoscaler_controller.go:482-555, for a claim whose allocation has just appeared. */
    method OnClaimBound(a: Autoscaler, index: nat, failing: set<string>)
      requires index < |claims| && !claims[index].bound
      modifies this
      ensures Current() == Next(a, old(Current()), ClaimBound(index, failing))
    {
      claims := claims[index := claims[index].(bound := true)];
      if !Handled(a, claims[index]) || phase.Deleted? {
        return;
      }
      CleanupOldResourceClaimTemplates(a, failing);
    }

    /** resourceclaimautoscaler_controller.go:378-442. */
    method OnClaimDeleted(a: Autoscaler, index: nat, deleteOk: bool)
      requires index < |claims|
      modifies this
      ensures Current() == Next(a, old(Current()), ClaimDeleted(index, deleteOk))
    {
      var claim := claims[index];
      claims := claims[..index] + claims[index + 1..];
      if !Handled(a, claim) || TEMPLATE_NAME_LABEL !in claim.labels || phase.Deleted? {
        return;
      }
      var name := claim.labels[TEMPLATE_NAME_LABEL];
      if desired != "" {
        if desired == name {
          return;
        } else if name != a.naming.original && deleteOk {
          templates := Without(templates, name);
        }
      }
    }

    /** resourceclaimautoscaler_controller.go:667-765: one update for both changes. */
    method CleanupWorkload(a: Autoscaler, minReplicas: int, ok: bool)
      requires !phase.Deleted?
      modifies this
      ensures Current() == Next(a, old(Current()), RestoreWorkload(minReplicas, ok))
    {
      var pod := FetchPodTemplate();
      pod.PointAllAt(a.naming.original);
      if ok {
        workload := UpdatedWorkload(workload, pod.claims[..], minReplicas);
        phase := Restored;
      }
    }
  }

  /** The names carried by the first claims. */
  ghost predicate NamesUpTo(n: Naming, claims: seq<Claim>, i: nat, names: set<string>)
    requires i <= |claims|
  {
    forall name :: name in names <==> Claimed(n, claims[..i], name)
  }

  lemma NoNames(n: Naming, claims: seq<Claim>)
    ensures NamesUpTo(n, claims, 0, {})
  {
  }

  lemma OneMoreClaim(n: Naming, claims: seq<Claim>, i: nat, names: set<string>, more: set<string>)
    requires i < |claims| && NamesUpTo(n, claims, i, names)
    requires more == if Selects(ClaimSelector(n), claims[i].labels) && TEMPLATE_NAME_LABEL in claims[i].labels
                     then names + {claims[i].labels[TEMPLATE_NAME_LABEL]} else names
    ensures NamesUpTo(n, claims, i + 1, more)
  {
    forall name
      ensures name in more <==> Claimed(n, claims[..i + 1], name)
    {
      ClaimedExtends(n, claims, i, name);
      hide Claimed, Selects, ClaimSelector;
    }
  }

  lemma ClaimedExtends(n: Naming, claims: seq<Claim>, i: nat, name: string)
    requires i < |claims|
    ensures Claimed(n, claims[..i + 1], name) <==> Claimed(n, claims[..i], name) || ClaimOf(n, claims[i], name)
  {
    hide ClaimOf;
    assert claims[..i + 1] == claims[..i] + [claims[i]];
    if Claimed(n, claims[..i], name) {
      var j :| 0 <= j < i && ClaimOf(n, claims[..i][j], name);
      assert claims[..i + 1][j] == claims[..i][j];
    }
    if ClaimOf(n, claims[i], name) {
      assert claims[..i + 1][i] == claims[i];
    }
  }

  lemma AllNames(n: Naming, claims: seq<Claim>, names: set<string>)
    requires NamesUpTo(n, claims, |claims|, names)
    ensures forall name :: name in names <==> Claimed(n, claims, name)
  {
    assert claims[..|claims|] == claims;
  }

  /** Neither recorded nor claimed, and its delete succeeds. */
  predicate Doomed(name: string, desired: string, claimed: set<string>, failing: set<string>) {
    name != desired && name !in claimed && name !in failing
  }

  lemma CleanedUp(a: Autoscaler, s: Cluster, failing: set<string>, listed: set<string>, deleted: set<string>,
                  claimed: set<string>)
    requires listed == set name | name in s.templates && Listed(a.naming, s.templates, name)
    requires forall name :: name in claimed <==> Claimed(a.naming, s.claims, name)
    requires deleted == set name | name in listed && Doomed(name, s.desired, claimed, failing)
    ensures s.templates - deleted == AfterCleanup(a, s, failing).templates
  {
    hide Claimed, Listed;
  }
}
