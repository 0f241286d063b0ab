/**
 The rounds of internal/scaler/scaler.go as objects: each holds its own copy of the autoscaler, changes
 that copy field by field and writes it back to the API server. Any number of rounds share the server
 and interleave between calls; GracePeriod is what is left of them when all but LastApplyTime is forgotten.
 */
module ScalingRounds {
  import opened Wrappers
  import opened DeviceRequests
  import opened ScalingDecision
  import opened GracePeriod

  /** The fields of Status.ScalingStatus a round sets. */
  datatype Status = Status(desiredReplicas: Option<int>, lastApplyTime: Option<nat>, desiredClaimTemplate: string)

  /** What is read back of a status that was written: times in whole seconds. */
  function Persisted(status: Status): Status {
    if status.lastApplyTime.None? then status else status.(lastApplyTime := Some(Stored(status.lastApplyTime.value)))
  }

  /** How far a round has come; the code keeps it in its program counter. */
  datatype Stage = Begun | Read | Clear | Marked | Written | Applied | Over

  class ApiServer {
    var now: nat
    /** every status stored so far, indexed by resource version; the last one is current */
    var versions: seq<Status>
    /** what the owner and its template ask for */
    var workload: ResourceConfiguration
    ghost var rounds: map<nat, Round>
    ghost var log: seq<Entry>

    ghost predicate Valid()
      reads this, rounds.Values
    {
      && versions != []
      && forall e :: e in rounds ==> rounds[e].id == e && rounds[e].server == this && rounds[e].Consistent()
    }

    ghost function Current(): State
      reads this, rounds.Values
    {
      State(now, History(versions), map e | e in rounds :: rounds[e].Phase(), log)
    }

    constructor (status: Status, workload: ResourceConfiguration)
      ensures Valid() && Current() == Init(status.lastApplyTime)
      ensures versions == [status] && this.workload == workload && rounds == map[]
    {
      now, versions, this.workload, rounds, log := 0, [status], workload, map[], [];
    }

    /** The version check of a status update; a write of the current version becomes the next one. */
    method UpdateStatus(version: nat, status: Status) returns (ok: bool)
      requires versions != []
      modifies this`versions
      ensures ok == (version == |old(versions)| - 1)
      ensures versions == if ok then old(versions) + [Persisted(status)] else old(versions)
    {
      ok := version == |versions| - 1;
      if ok {
        versions := versions + [Persisted(status)];
      }
    }
  }

  ghost function History(versions: seq<Status>): (h: seq<Option<nat>>)
    ensures |h| == |versions| && forall i :: 0 <= i < |versions| ==> h[i] == versions[i].lastApplyTime
  {
    seq(|versions|, i requires 0 <= i < |versions| => versions[i].lastApplyTime)
  }

  lemma HistoryGrows(versions: seq<Status>, status: Status)
    ensures History(versions + [status]) == History(versions) + [status.lastApplyTime]
  {
  }

  lemma CheckStep(s: State, e: nat, seconds: nat)
    requires s.history != [] && e in s.evaluators && s.evaluators[e].Fetched?
    ensures var copy := s.evaluators[e].copy;
            Next(s, Check(e, seconds))
              == Become(s, e, if MustWait(copy, seconds * SECOND, s.now) then Ended
                              else Cleared(copy, seconds * SECOND))
  {
  }

  lemma WriteStep(s: State, e: nat)
    requires s.history != [] && e in s.evaluators && s.evaluators[e].Stamped?
    ensures Next(s, WriteStatus(e)) == if Accepted(s, s.evaluators[e].copy) then CommitBy(s, e) else Become(s, e, Ended)
  {
  }

  lemma PatchStep(s: State, e: nat, succeeds: bool)
    requires s.history != [] && e in s.evaluators && s.evaluators[e].Committed?
    ensures Next(s, PatchWorkload(e, succeeds)) == if succeeds then PatchBy(s, e) else Become(s, e, Ended)
  {
  }

  lemma TemplateStep(s: State, e: nat)
    requires s.history != [] && e in s.evaluators && s.evaluators[e].Patched?
    ensures var copy := s.evaluators[e].copy;
            Next(s, WriteTemplateStatus(e)) ==
              if !Accepted(s, copy) then s
              else Become(s, e, Patched(Copy(|s.history|, copy.lastApply))).(history := s.history + [copy.lastApply])
  {
  }

  class Round {
    const id: nat
    const server: ApiServer
    /** the round's copy of the autoscaler */
    var resourceVersion: nat
    var status: Status
    var gracePeriod: nat
    ghost var stage: Stage
    ghost var readTime: Option<nat>

    ghost predicate Consistent()
      reads this
    {
      && (stage.Marked? ==> status.lastApplyTime.Some?)
      && (stage.Written? || stage.Applied? ==> status == Persisted(status))
    }

    ghost function Phase(): Phase
      reads this
    {
      match stage
      case Begun => Started
      case Read => Fetched(Copy(resourceVersion, status.lastApplyTime))
      case Clear => Cleared(Copy(resourceVersion, status.lastApplyTime), gracePeriod)
      case Marked =>
        Stamped(Copy(resourceVersion, readTime), gracePeriod,
                if status.lastApplyTime.Some? then status.lastApplyTime.value else 0)
      case Written => Committed(Copy(resourceVersion, status.lastApplyTime))
      case Applied => Patched(Copy(resourceVersion, status.lastApplyTime))
      case Over => Ended
    }

    /** This round is one of its server's, at the given stage. */
    ghost predicate At(s: Stage)
      reads this, server, server.rounds.Values
    {
      server.Valid() && id in server.rounds && server.rounds[id] == this && stage == s
    }

    /** Only this round and the server's own fields changed since the old state: so did only its phase. */
    twostate lemma OnlyThisChanged()
      requires old(server.Valid()) && id in old(server.rounds) && old(server.rounds)[id] == this
      requires server.rounds == old(server.rounds) && server.versions != [] && Consistent()
      requires forall e :: e in server.rounds && e != id ==> unchanged(server.rounds[e])
      ensures At(stage)
      ensures server.Current() == State(server.now, History(server.versions),
                                        old(server.Current()).evaluators[id := Phase()], server.log)
    {
      assert server.Current().evaluators == old(server.Current()).evaluators[id := Phase()];
    }

    constructor (id: nat, server: ApiServer)
      requires server.Valid() && id !in server.rounds
      modifies server`rounds
      ensures this.id == id && this.server == server && At(Begun)
      ensures server.rounds == old(server.rounds)[id := this]
      ensures server.Current() == Next(old(server.Current()), Start(id))
    {
      this.id, this.server := id, server;
      resourceVersion, status, gracePeriod := 0, Status(None, None, ""), 0;
      stage, readTime := Begun, None;
      new;
      server.rounds := server.rounds[id := this];
      assert server.Current().evaluators == old(server.Current()).evaluators[id := Started];
    }

    /** scaler.go:293-298: the read may be served from a cache that lags behind. */
    method Get(version: nat)
      requires At(Begun) && version < |server.versions|
      modifies this
      ensures At(Read) && resourceVersion == version && status == server.versions[version]
      ensures server.Current() == Next(old(server.Current()), Fetch(id, version))
    {
      resourceVersion, status := version, server.versions[version];
      stage := Read;
      OnlyThisChanged();
    }

    /** scaler.go:373-380: a decision for no action ends the round. */
    method StopHere()
      requires At(Read)
      modifies this`stage
      ensures At(Over) && server.Current() == Next(old(server.Current()), Decline(id))
    {
      stage := Over;
      OnlyThisChanged();
    }

    /** scaler.go:427-445: true when the grace period of the decided direction has not elapsed; the round then ends. */
    method CheckGracePeriod(action: ScalingAction, upSeconds: nat, downSeconds: nat) returns (wait: bool)
      requires At(Read)
      modifies this`gracePeriod, this`stage
      ensures At(if wait then Over else Clear)
      ensures action == ScaleUp ==>
                (wait <==> status.lastApplyTime.Some? && server.now - status.lastApplyTime.value < upSeconds * SECOND)
      ensures action != ScaleUp ==>
                (wait <==> status.lastApplyTime.Some? && server.now - status.lastApplyTime.value < downSeconds * SECOND)
      ensures !wait ==> gracePeriod == (if action == ScaleUp then upSeconds else downSeconds) * SECOND
      ensures server.Current()
           == Next(old(server.Current()), Check(id, if action == ScaleUp then upSeconds else downSeconds))
    {
      CheckStep(server.Current(), id, if action == ScaleUp then upSeconds else downSeconds);
      hide Next;
      if action == ScaleUp {
        gracePeriod := upSeconds * SECOND;
      } else {
        gracePeriod := downSeconds * SECOND;
      }
      wait := false;
      if status.lastApplyTime.Some? {
        var elapsed := server.now - status.lastApplyTime.value;
        wait := elapsed < gracePeriod;
      }
      stage := if wait then Over else Clear;
      OnlyThisChanged();
    }

    /** scaler.go:449-455: replicas and time go into the copy; the server still holds the old ones. */
    method SetScalingStatus(desiredReplicas: int)
      requires At(Clear)
      modifies this`status, this`stage, this`readTime
      ensures At(Marked)
      ensures status == old(status).(desiredReplicas := Some(desiredReplicas), lastApplyTime := Some(server.now))
      ensures server.Current() == Next(old(server.Current()), GracePeriod.Stamp(id))
    {
      readTime := status.lastApplyTime;
      status := status.(desiredReplicas := Some(desiredReplicas));
      status := status.(lastApplyTime := Some(server.now));
      stage := Marked;
      OnlyThisChanged();
    }

    /** scaler.go:413-415 and 503: refused when another write came first; the answer refreshes the client's copy. */
    method WriteScalingStatus() returns (ok: bool)
      requires At(Marked)
      modifies this`resourceVersion, this`status, this`stage, server`versions, server`log
      ensures At(if ok then Written else Over)
      ensures ok == (old(resourceVersion) == |old(server.versions)| - 1)
      ensures server.versions == if ok then old(server.versions) + [Persisted(old(status))] else old(server.versions)
      ensures ok ==> resourceVersion == |server.versions| - 1 && status == Persisted(old(status))
      ensures server.log == old(server.log)
                         + if ok then [Commit(id, status.lastApplyTime.value, old(gracePeriod))] else []
      ensures server.Current() == Next(old(server.Current()), WriteStatus(id))
    {
      WriteStep(server.Current(), id);
      hide Next, Stored, History;
      ok := server.UpdateStatus(resourceVersion, status);
      if !ok {
        stage := Over;
      } else {
        resourceVersion, status := |server.versions| - 1, Persisted(status);
        stage := Written;
        server.log := server.log + [Commit(id, status.lastApplyTime.value, gracePeriod)];
        HistoryGrows(old(server.versions), status);
      }
      OnlyThisChanged();
    }

    /** scaler.go:507-554 and 668-703: by the flags, resources and replicas, replicas only, or nothing is written. */
    method ExecuteScalingChanges(v: Verdict, desired: ResourceConfiguration, succeeds: bool) returns (patched: bool)
      requires At(Written)
      modifies this`stage, server`workload, server`log
      ensures patched == (succeeds && (v.resourceChange || v.replicaChange))
      ensures At(if patched then Applied else Over)
      ensures patched && v.resourceChange ==> server.workload == desired
      ensures patched && !v.resourceChange ==> server.workload == old(server.workload).(replicas := desired.replicas)
      ensures !patched ==> server.workload == old(server.workload)
      ensures server.log == old(server.log) + if patched then [Patch(id)] else []
      ensures server.Current() == Next(old(server.Current()), PatchWorkload(id, patched))
    {
      PatchStep(server.Current(), id, succeeds && (v.resourceChange || v.replicaChange));
      hide Next;
      patched := false;
      if succeeds {
        if v.resourceChange {
          server.workload := desired;
          patched := true;
        } else if v.replicaChange {
          server.workload := server.workload.(replicas := desired.replicas);
          patched := true;
        }
      }
      if patched {
        stage := Applied;
        server.log := server.log + [Patch(id)];
      } else {
        stage := Over;
      }
      OnlyThisChanged();
    }

    /** scaler.go:538-545: the template name goes into the status; a refused write is only logged. */
    method RecordTemplate(name: string) returns (ok: bool)
      requires At(Applied)
      modifies this`resourceVersion, this`status, server`versions
      ensures At(Applied)
      ensures ok == (old(resourceVersion) == |old(server.versions)| - 1)
      ensures server.versions == if ok then old(server.versions) + [old(status).(desiredClaimTemplate := name)]
                                 else old(server.versions)
      ensures server.Current() == Next(old(server.Current()), WriteTemplateStatus(id))
    {
      TemplateStep(server.Current(), id);
      hide Next, History;
      status := status.(desiredClaimTemplate := name);
      ok := server.UpdateStatus(resourceVersion, status);
      if ok {
        resourceVersion := |server.versions| - 1;
        HistoryGrows(old(server.versions), status);
      }
      OnlyThisChanged();
    }

    /** scaler.go:413-420, undisturbed: the status is stored, then the workload written, then its template recorded. */
    method CommitAndExecute(v: Verdict, desired: ResourceConfiguration, template: string)
      requires At(Clear) && resourceVersion == |server.versions| - 1 && status == server.versions[resourceVersion]
      modifies this`resourceVersion, this`status, this`stage, this`readTime
      modifies server`versions, server`workload, server`log
      ensures var stamped := old(status).(desiredReplicas := Some(desired.replicas),
                                          lastApplyTime := Some(Stored(server.now)));
              server.versions == old(server.versions) + [stamped]
                + (if v.resourceChange then [stamped.(desiredClaimTemplate := template)] else [])
      ensures server.log == old(server.log) + [Commit(id, Stored(server.now), old(gracePeriod))]
                + (if v.resourceChange || v.replicaChange then [Patch(id)] else [])
      ensures v.resourceChange ==> server.workload == desired
      ensures !v.resourceChange ==>
                server.workload == if v.replicaChange then old(server.workload).(replicas := desired.replicas)
                                   else old(server.workload)
    {
      hide Next, History, ApiServer.Current, Round.Phase, Init, Round.Consistent, Stored;
      SetScalingStatus(desired.replicas);
      var _ := WriteScalingStatus();
      var patched := ExecuteScalingChanges(v, desired, true);
      if patched && v.resourceChange {
        var _ := RecordTemplate(template);
      }
    }

    /**
     scaler.go:290-424, undisturbed by other rounds. No action commits nothing; scaling up, or down, commits exactly
     when LastApplyTime is not set or as long ago as the grace period for up, or down. A commit stores the status
     first, and then the workload is written as far as the flags say.
     */
    method ApplyScalingAction(v: Verdict, desired: ResourceConfiguration, upSeconds: nat, downSeconds: nat,
                              template: string)
      returns (committed: bool)
      requires At(Begun)
      modifies this, server`versions, server`workload, server`log
      ensures var last := old(server.versions)[|old(server.versions)| - 1].lastApplyTime;
              && (v.action == NoAction ==> !committed)
              && (v.action == ScaleUp ==>
                    (committed <==> last.None? || server.now - last.value >= upSeconds * SECOND))
              && (v.action == ScaleDown ==>
                    (committed <==> last.None? || server.now - last.value >= downSeconds * SECOND))
      ensures !committed ==> server.versions == old(server.versions) && server.workload == old(server.workload)
                             && server.log == old(server.log)
      ensures committed ==>
                var current := old(server.versions)[|old(server.versions)| - 1];
                var stamped :=
                  current.(desiredReplicas := Some(desired.replicas), lastApplyTime := Some(Stored(server.now)));
                server.versions == old(server.versions) + [stamped]
                  + (if v.resourceChange then [stamped.(desiredClaimTemplate := template)] else [])
      ensures committed ==>
                var grace := (if v.action == ScaleUp then upSeconds else downSeconds) * SECOND;
                server.log == old(server.log) + [Commit(id, Stored(server.now), grace)]
                  + (if v.resourceChange || v.replicaChange then [Patch(id)] else [])
      ensures committed && v.resourceChange ==> server.workload == desired
      ensures committed && !v.resourceChange ==>
                server.workload == if v.replicaChange then old(server.workload).(replicas := desired.replicas)
                                   else old(server.workload)
    {
      hide Next, History, ApiServer.Current, Round.Phase, Init, Round.Consistent, MustWait;
      committed := false;
      Get(|server.versions| - 1);
      if v.action == NoAction {
        StopHere();
        return;
      }
      var wait := CheckGracePeriod(v.action, upSeconds, downSeconds);
      if wait {
        return;
      }
      committed := true;
      CommitAndExecute(v, desired, template);
    }
  }
}
