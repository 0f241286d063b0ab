/**
 The device requests of a ResourceClaimTemplate: writing a desired configuration into them
 (patchResourceClaimTemplate), checking them against one (templateMatchesDesiredConfig) and reading
 the current resources back (getCurrentResourcesFromTemplate). All three walk the same list.
 */
module DeviceRequests {
  import opened Wrappers

  /** Capacity requests by qualified name; Quantity values as exact reals. */
  type Capacities = map<string, real>

  const COMPUTE := "compute"
  const MEMORY := "memory"
  const GIB := 1073741824.0

  /** An ExactDeviceRequest or a DeviceSubRequest. capacity is None when Capacity or its Requests is nil. */
  datatype Device = Device(deviceClass: string, count: int, capacity: Option<Capacities>)

  datatype DeviceRequest = DeviceRequest(name: string, exactly: Option<Device>, firstAvailable: seq<Device>)

  datatype ResourceConfiguration = ResourceConfiguration(
    replicas: int, gpusPerReplica: int, requestedCompute: real, requestedMemoryGB: real)
  {
    /** Whole-number compute, whole-byte memory and at least one GPU: what survives int64 conversion. */
    predicate Whole() {
      && gpusPerReplica >= 1
      && requestedCompute == requestedCompute.Floor as real
      && requestedMemoryGB * GIB == (requestedMemoryGB * GIB).Floor as real
    }
  }

  /** Go's conversion of a float64 to int64: towards zero. */
  function Truncate(x: real): (n: int)
    ensures if x >= 0.0 then 0 <= n && n as real <= x < n as real + 1.0
            else n <= 0 && n as real - 1.0 < x <= n as real
  {
    if x >= 0.0 then x.Floor else -((-x).Floor)
  }

  // ---------- which devices a walk meets ----------

  /** The first sub-request of the class. */
  function FirstMatch(devices: seq<Device>, cls: string): (r: Option<nat>)
    ensures r.Some? ==> r.value < |devices| && devices[r.value].deviceClass == cls
    ensures r.Some? ==> forall j :: 0 <= j < r.value ==> devices[j].deviceClass != cls
    ensures r.None? ==> forall j :: 0 <= j < |devices| ==> devices[j].deviceClass != cls
  {
    if devices == [] then None
    else if devices[0].deviceClass == cls then Some(0)
    else match FirstMatch(devices[1..], cls)
      case None => None
      case Some(j) => Some(j + 1)
  }

  predicate MatchesExactly(request: DeviceRequest, cls: string) {
    request.exactly.Some? && request.exactly.value.deviceClass == cls
  }

  /** The device of one request that stands for the class: Exactly first, else the first sub-request. */
  function MatchIn(request: DeviceRequest, cls: string): Option<Device> {
    if MatchesExactly(request, cls) then request.exactly
    else match FirstMatch(request.firstAvailable, cls)
      case Some(j) => Some(request.firstAvailable[j])
      case None => None
  }

  /**
   The devices the reader takes values from, in order. An Exactly match ends its walk; after a
   sub-request match only the inner loop breaks, so later requests are visited too.
   */
  function Visited(requests: seq<DeviceRequest>, cls: string): seq<Device> {
    if requests == [] then []
    else if MatchesExactly(requests[0], cls) then [requests[0].exactly.value]
    else match MatchIn(requests[0], cls)
      case Some(d) => [d] + Visited(requests[1..], cls)
      case None => Visited(requests[1..], cls)
  }

  // ---------- reading ----------

  datatype Reading = Reading(gpus: int, resources: Capacities)

  /** One visited device overrides the count when positive and the capacities when present. */
  function Absorb(r: Reading, d: Device): Reading {
    Reading(if d.count > 0 then d.count else r.gpus,
            if d.capacity.Some? then d.capacity.value else r.resources)
  }

  function AbsorbAll(r: Reading, devices: seq<Device>): Reading
    decreases |devices|
  {
    if devices == [] then r else AbsorbAll(Absorb(r, devices[0]), devices[1..])
  }

  const NOTHING_READ := Reading(1, map[])

  function ReadBack(requests: seq<DeviceRequest>, cls: string): Reading {
    AbsorbAll(NOTHING_READ, Visited(requests, cls))
  }

  // ---------- writing ----------

  function Configured(d: Device, desired: ResourceConfiguration): Device {
    var kept := match d.capacity case Some(c) => c case None => map[];
    d.(count := desired.gpusPerReplica,
       capacity := Some(kept[COMPUTE := Truncate(desired.requestedCompute) as real]
                           [MEMORY := Truncate(desired.requestedMemoryGB * GIB) as real]))
  }

  function WrittenRequest(request: DeviceRequest, cls: string, desired: ResourceConfiguration): DeviceRequest {
    if MatchesExactly(request, cls) then request.(exactly := Some(Configured(request.exactly.value, desired)))
    else match FirstMatch(request.firstAvailable, cls)
      case Some(j) =>
        request.(firstAvailable := request.firstAvailable[j := Configured(request.firstAvailable[j], desired)])
      case None => request
  }

  /** The position of the request the writer changes. */
  function TargetRequest(requests: seq<DeviceRequest>, cls: string): (r: Option<nat>)
    ensures r.Some? ==> r.value < |requests| && MatchIn(requests[r.value], cls).Some?
    ensures r.Some? ==> forall i :: 0 <= i < r.value ==> MatchIn(requests[i], cls).None?
    ensures r.None? ==> forall i :: 0 <= i < |requests| ==> MatchIn(requests[i], cls).None?
  {
    if requests == [] then None
    else if MatchIn(requests[0], cls).Some? then Some(0)
    else match TargetRequest(requests[1..], cls)
      case None =>
        assert forall i :: 0 < i < |requests| ==> requests[i] == requests[1..][i - 1];
        None
      case Some(i) =>
        assert forall k :: 0 < k < i + 1 ==> requests[k] == requests[1..][k - 1];
        Some(i + 1)
  }

  // ---------- checking ----------

  predicate DeviceMatches(d: Device, desired: ResourceConfiguration) {
    && d.count == desired.gpusPerReplica
    && (d.capacity.Some? ==>
          && (COMPUTE in d.capacity.value ==> d.capacity.value[COMPUTE] == desired.requestedCompute)
          && (MEMORY in d.capacity.value ==> d.capacity.value[MEMORY] / GIB == desired.requestedMemoryGB))
  }

  /** The check passes when the first device of the class exists and agrees. */
  predicate Matches(requests: seq<DeviceRequest>, cls: string, desired: ResourceConfiguration) {
    var target := TargetRequest(requests, cls);
    target.Some? && DeviceMatches(MatchIn(requests[target.value], cls).value, desired)
  }

  /** The object whose requests the scaler rewrites in place. */
  class ResourceClaimTemplate {
    var requests: seq<DeviceRequest>

    constructor (requests: seq<DeviceRequest>)
      ensures this.requests == requests
    {
      this.requests := requests;
    }

    /** resourceclaim_handler.go:257-308: rewrite the first match only; report whether there was one. */
    method UpdateRequests(cls: string, desired: ResourceConfiguration) returns (updated: bool)
      modifies this
      ensures updated <==> TargetRequest(old(requests), cls).Some?
      ensures !updated ==> requests == old(requests)
      ensures updated ==> var i := TargetRequest(old(requests), cls).value;
                          requests == old(requests)[i := WrittenRequest(old(requests)[i], cls, desired)]
    {
      updated := false;
      var i := 0;
      while i < |requests|
        invariant 0 <= i <= |requests| && !updated && requests == old(requests)
        invariant forall k :: 0 <= k < i ==> MatchIn(requests[k], cls).None?
      {
        var request := requests[i];
        if MatchesExactly(request, cls) {
          request := request.(exactly := Some(Configured(request.exactly.value, desired)));
          updated := true;
        } else {
          var j := 0;
          while j < |request.firstAvailable|
            invariant 0 <= j <= |request.firstAvailable| && !updated && request == old(requests)[i]
            invariant forall k :: 0 <= k < j ==> request.firstAvailable[k].deviceClass != cls
          {
            var subRequest := request.firstAvailable[j];
            if subRequest.deviceClass == cls {
              FirstMatchIs(request.firstAvailable, cls, j);
              request := request.(firstAvailable := request.firstAvailable[j := Configured(subRequest, desired)]);
              updated := true;
              break;
            }
            j := j + 1;
          }
        }
        if updated {
          requests := requests[i := request];
          break;
        }
        i := i + 1;
      }
    }

    /** resourceclaim_handler.go:326-377. */
    method MatchesDesiredConfig(cls: string, desired: ResourceConfiguration) returns (matches: bool)
      ensures matches == Matches(requests, cls, desired)
    {
      var i := 0;
      while i < |requests|
        invariant 0 <= i <= |requests|
        invariant forall k :: 0 <= k < i ==> MatchIn(requests[k], cls).None?
      {
        if MatchesExactly(requests[i], cls) {
          return DeviceMatches(requests[i].exactly.value, desired);
        }
        var j := 0;
        while j < |requests[i].firstAvailable|
          invariant 0 <= j <= |requests[i].firstAvailable|
          invariant forall k :: 0 <= k < j ==> requests[i].firstAvailable[k].deviceClass != cls
        {
          if requests[i].firstAvailable[j].deviceClass == cls {
            FirstMatchIs(requests[i].firstAvailable, cls, j);
            return DeviceMatches(requests[i].firstAvailable[j], desired);
          }
          j := j + 1;
        }
        i := i + 1;
      }
      return false;
    }

    /** resourceclaim_handler.go:90-116. */
    method CurrentResources(cls: string) returns (gpus: int, resources: Capacities)
      ensures Reading(gpus, resources) == ReadBack(requests, cls)
    {
      gpus, resources := 1, map[];
      var i := 0;
      while i < |requests|
        invariant 0 <= i <= |requests|
        invariant AbsorbAll(Reading(gpus, resources), Visited(requests[i..], cls)) == ReadBack(requests, cls)
      {
        var request := requests[i];
        ghost var before := Reading(gpus, resources);
        assert requests[i..][0] == request && requests[i..][1..] == requests[i + 1..];
        if MatchesExactly(request, cls) {
          if request.exactly.value.count > 0 {
            gpus := request.exactly.value.count;
          }
          if request.exactly.value.capacity.Some? {
            resources := request.exactly.value.capacity.value;
          }
          return;
        }
        var j := 0;
        while j < |request.firstAvailable|
          invariant 0 <= j <= |request.firstAvailable| && Reading(gpus, resources) == before
          invariant forall k :: 0 <= k < j ==> request.firstAvailable[k].deviceClass != cls
        {
          var subRequest := request.firstAvailable[j];
          if subRequest.deviceClass == cls {
            FirstMatchIs(request.firstAvailable, cls, j);
            if subRequest.count > 0 {
              gpus := subRequest.count;
            }
            if subRequest.capacity.Some? {
              resources := subRequest.capacity.value;
            }
            break;
          }
          j := j + 1;
        }
        i := i + 1;
      }
    }
  }

  lemma FirstMatchIs(devices: seq<Device>, cls: string, j: nat)
    requires j < |devices| && devices[j].deviceClass == cls
    requires forall k :: 0 <= k < j ==> devices[k].deviceClass != cls
    ensures FirstMatch(devices, cls) == Some(j)
  {
  }

  // ---------- what the walks see ----------

  predicate HasExact(requests: seq<DeviceRequest>, cls: string) {
    exists i :: 0 <= i < |requests| && MatchesExactly(requests[i], cls)
  }

  /** Only a request matched by its Exactly ends the reader's walk; after it further requests are not read. */
  lemma LaterRequestsRead(requests: seq<DeviceRequest>, cls: string, later: DeviceRequest)
    ensures var before, after := ReadBack(requests, cls), ReadBack(requests + [later], cls);
            var d := MatchIn(later, cls);
            if d.None? || HasExact(requests, cls) then after == before
            else
              && after.gpus == (if d.value.count > 0 then d.value.count else before.gpus)
              && after.resources == (if d.value.capacity.Some? then d.value.capacity.value else before.resources)
  {
    WalkGoesOn(requests, cls, later);
    var d, visited := MatchIn(later, cls), Visited(requests, cls);
    if d.None? || HasExact(requests, cls) {
      assert visited + [] == visited;
    } else {
      AbsorbAllAppend(NOTHING_READ, visited, d.value);
    }
  }

  lemma {:induction false} WalkGoesOn(requests: seq<DeviceRequest>, cls: string, later: DeviceRequest)
    ensures Visited(requests + [later], cls) == Visited(requests, cls) +
              (if MatchIn(later, cls).None? || HasExact(requests, cls) then []
               else [MatchIn(later, cls).value])
  {
    if requests == [] {
      assert [] + [later] == [later] && Visited([later][1..], cls) == [];
    } else {
      assert (requests + [later])[1..] == requests[1..] + [later];
      WalkGoesOn(requests[1..], cls, later);
      assert HasExact(requests, cls) <==> MatchesExactly(requests[0], cls) || HasExact(requests[1..], cls) by {
        assert forall i :: 0 < i < |requests| ==> requests[i] == requests[1..][i - 1];
      }
      hide HasExact;
    }
  }

  lemma {:induction false} AbsorbAllAppend(r: Reading, devices: seq<Device>, d: Device)
    ensures AbsorbAll(r, devices + [d]) == Absorb(AbsorbAll(r, devices), d)
    decreases |devices|
  {
    if devices == [] {
      assert [d][1..] == [];
    } else {
      assert (devices + [d])[1..] == devices[1..] + [d];
      AbsorbAllAppend(Absorb(r, devices[0]), devices[1..], d);
    }
  }

  // ---------- round trips ----------

  lemma TruncateWhole(x: real)
    requires x == x.Floor as real
    ensures Truncate(x) as real == x
  {
    var n := x.Floor;
    assert (-x).Floor == -n;
  }

  lemma ConfiguredMatches(d: Device, desired: ResourceConfiguration)
    requires desired.Whole()
    ensures DeviceMatches(Configured(d, desired), desired)
    ensures Configured(d, desired).deviceClass == d.deviceClass
  {
    TruncateWhole(desired.requestedCompute);
    TruncateWhole(desired.requestedMemoryGB * GIB);
  }

  lemma WrittenMatchIn(request: DeviceRequest, cls: string, desired: ResourceConfiguration)
    requires MatchIn(request, cls).Some?
    ensures MatchesExactly(WrittenRequest(request, cls, desired), cls) <==> MatchesExactly(request, cls)
    ensures MatchIn(WrittenRequest(request, cls, desired), cls)
         == Some(Configured(MatchIn(request, cls).value, desired))
  {
    if !MatchesExactly(request, cls) {
      var j := FirstMatch(request.firstAvailable, cls).value;
      FirstMatchIs(WrittenRequest(request, cls, desired).firstAvailable, cls, j);
    }
  }

  function Written(requests: seq<DeviceRequest>, cls: string, desired: ResourceConfiguration): seq<DeviceRequest> {
    match TargetRequest(requests, cls)
    case None => requests
    case Some(i) => requests[i := WrittenRequest(requests[i], cls, desired)]
  }

  lemma TargetRequestIs(requests: seq<DeviceRequest>, cls: string, i: nat)
    requires i < |requests| && MatchIn(requests[i], cls).Some?
    requires forall k :: 0 <= k < i ==> MatchIn(requests[k], cls).None?
    ensures TargetRequest(requests, cls) == Some(i)
  {
  }

  /** What was written always passes the check, so an up-to-date template is never deleted and rebuilt. */
  lemma WrittenPassesCheck(requests: seq<DeviceRequest>, cls: string, desired: ResourceConfiguration)
    requires desired.Whole() && TargetRequest(requests, cls).Some?
    ensures Matches(Written(requests, cls, desired), cls, desired)
  {
    var i := TargetRequest(requests, cls).value;
    WrittenMatchIn(requests[i], cls, desired);
    ConfiguredMatches(MatchIn(requests[i], cls).value, desired);
    TargetRequestIs(Written(requests, cls, desired), cls, i);
  }

  predicate OthersKept(before: Capacities, after: Capacities) {
    forall q :: q in before && q != COMPUTE && q != MEMORY ==> q in after && after[q] == before[q]
  }

  /** Only the first device of the class changes: every other request, sub-request and capacity is kept. */
  lemma WrittenElsewhereUnchanged(requests: seq<DeviceRequest>, cls: string, desired: ResourceConfiguration)
    requires TargetRequest(requests, cls).Some?
    ensures var i, w := TargetRequest(requests, cls).value, Written(requests, cls, desired);
            && |w| == |requests|
            && (forall k :: 0 <= k < |w| && k != i ==> w[k] == requests[k])
            && w[i].name == requests[i].name
            && (MatchesExactly(requests[i], cls) ==> w[i].firstAvailable == requests[i].firstAvailable)
            && (!MatchesExactly(requests[i], cls) ==>
                  && w[i].exactly == requests[i].exactly
                  && |w[i].firstAvailable| == |requests[i].firstAvailable|
                  && forall j :: 0 <= j < |w[i].firstAvailable|
                                 && Some(j) != FirstMatch(requests[i].firstAvailable, cls)
                       ==> w[i].firstAvailable[j] == requests[i].firstAvailable[j])
    ensures var i := TargetRequest(requests, cls).value;
            var d, e := MatchIn(requests[i], cls).value, MatchIn(Written(requests, cls, desired)[i], cls);
            && e.Some? && e.value.deviceClass == d.deviceClass && e.value.capacity.Some?
            && (d.capacity.Some? ==> OthersKept(d.capacity.value, e.value.capacity.value))
  {
    WrittenMatchIn(requests[TargetRequest(requests, cls).value], cls, desired);
  }

  lemma {:induction false} VisitedAfterWrite(requests: seq<DeviceRequest>, cls: string, desired: ResourceConfiguration)
    ensures TargetRequest(requests, cls).None? ==> Visited(requests, cls) == []
    ensures TargetRequest(requests, cls).Some? ==>
              var v := Visited(requests, cls);
              v != [] && Visited(Written(requests, cls, desired), cls) == [Configured(v[0], desired)] + v[1..]
  {
    if requests != [] {
      var w := Written(requests, cls, desired);
      if MatchIn(requests[0], cls).Some? {
        WrittenMatchIn(requests[0], cls, desired);
        assert w[1..] == requests[1..];
      } else {
        VisitedAfterWrite(requests[1..], cls, desired);
        assert TargetRequest(requests, cls).Some? ==>
            w[0] == requests[0] && w[1..] == Written(requests[1..], cls, desired);
      }
    }
  }

  /** A device the reader passes without taking anything from it. */
  predicate Silent(d: Device) { d.count <= 0 && d.capacity.None? }

  predicate AllSilent(devices: seq<Device>) {
    forall k :: 0 <= k < |devices| ==> Silent(devices[k])
  }

  lemma {:induction false} SilentAbsorbs(r: Reading, devices: seq<Device>)
    requires AllSilent(devices)
    ensures AbsorbAll(r, devices) == r
    decreases |devices|
  {
    if devices != [] {
      SilentAbsorbs(r, devices[1..]);
    }
  }

  /** A reading that is exactly the desired configuration. */
  predicate ReadsExactly(r: Reading, desired: ResourceConfiguration) {
    && r.gpus == desired.gpusPerReplica
    && COMPUTE in r.resources && r.resources[COMPUTE] == desired.requestedCompute
    && MEMORY in r.resources && r.resources[MEMORY] / GIB == desired.requestedMemoryGB
  }

  lemma AbsorbAllCons(r: Reading, d: Device, devices: seq<Device>)
    ensures AbsorbAll(r, [d] + devices) == AbsorbAll(Absorb(r, d), devices)
  {
  }

  lemma ReadBackOfWritten(requests: seq<DeviceRequest>, cls: string, desired: ResourceConfiguration)
    requires TargetRequest(requests, cls).Some?
    ensures Visited(requests, cls) != []
    ensures ReadBack(Written(requests, cls, desired), cls)
         == AbsorbAll(Absorb(NOTHING_READ, Configured(Visited(requests, cls)[0], desired)), Visited(requests, cls)[1..])
  {
    VisitedAfterWrite(requests, cls, desired);
    var v := Visited(requests, cls);
    AbsorbAllCons(NOTHING_READ, Configured(v[0], desired), v[1..]);
  }

  /** Nothing but silent devices after the first: the condition under which a write is read back. */
  predicate ReadsFirst(requests: seq<DeviceRequest>, cls: string) {
    var v := Visited(requests, cls);
    v != [] && AllSilent(v[1..])
  }

  /**
   Reading back what was written returns it, for every desired configuration, exactly when the
   devices the reader still visits after the first one carry neither a count nor capacities.
   */
  lemma RoundTripIff(requests: seq<DeviceRequest>, cls: string)
    requires TargetRequest(requests, cls).Some?
    ensures ReadsFirst(requests, cls) <==>
              forall desired: ResourceConfiguration :: desired.Whole()
                ==> ReadsExactly(ReadBack(Written(requests, cls, desired), cls), desired)
  {
    VisitedAfterWrite(requests, cls, ResourceConfiguration(1, 1, 0.0, 0.0));
    if ReadsFirst(requests, cls) {
      forall desired: ResourceConfiguration | desired.Whole()
        ensures ReadsExactly(ReadBack(Written(requests, cls, desired), cls), desired)
      {
        RoundTrip(requests, cls, desired);
      }
    } else {
      var desired := SpoiledRoundTrip(requests, cls);
    }
  }

  /** What a template can hold of a configuration: compute and bytes are converted to whole numbers. */
  function InTemplate(desired: ResourceConfiguration): ResourceConfiguration {
    desired.(requestedCompute := Truncate(desired.requestedCompute) as real,
             requestedMemoryGB := Truncate(desired.requestedMemoryGB * GIB) as real / GIB)
  }

  /** Where write and read fit, any configuration comes back as what a template can hold of it. */
  lemma ReadsInTemplate(requests: seq<DeviceRequest>, cls: string, desired: ResourceConfiguration)
    requires TargetRequest(requests, cls).Some? && ReadsFirst(requests, cls) && desired.gpusPerReplica >= 1
    ensures ReadsExactly(ReadBack(Written(requests, cls, desired), cls), InTemplate(desired))
  {
    var v := Visited(requests, cls);
    ReadBackOfWritten(requests, cls, desired);
    SilentAbsorbs(Absorb(NOTHING_READ, Configured(v[0], desired)), v[1..]);
  }

  lemma RoundTrip(requests: seq<DeviceRequest>, cls: string, desired: ResourceConfiguration)
    requires TargetRequest(requests, cls).Some? && ReadsFirst(requests, cls) && desired.Whole()
    ensures ReadsExactly(ReadBack(Written(requests, cls, desired), cls), desired)
  {
    ReadsInTemplate(requests, cls, desired);
    TruncateWhole(desired.requestedCompute);
    TruncateWhole(desired.requestedMemoryGB * GIB);
  }

  lemma ReadsFirstIsTarget(requests: seq<DeviceRequest>, cls: string)
    requires ReadsFirst(requests, cls)
    ensures TargetRequest(requests, cls).Some?
  {
    VisitedAfterWrite(requests, cls, ResourceConfiguration(1, 1, 0.0, 0.0));
  }

  lemma ConfiguredTwice(d: Device, desired: ResourceConfiguration)
    ensures Configured(Configured(d, desired), desired) == Configured(d, desired)
  {
    var once := Configured(d, desired);
    assert Configured(once, desired).capacity.value == once.capacity.value;
  }

  /** Writing again changes nothing that is read. */
  lemma WrittenTwice(requests: seq<DeviceRequest>, cls: string, desired: ResourceConfiguration)
    requires TargetRequest(requests, cls).Some?
    ensures var once := Written(requests, cls, desired);
            && TargetRequest(once, cls).Some?
            && ReadBack(Written(once, cls, desired), cls) == ReadBack(once, cls)
            && (ReadsFirst(requests, cls) ==> ReadsFirst(once, cls))
  {
    var once := Written(requests, cls, desired);
    VisitedAfterWrite(requests, cls, desired);
    VisitedAfterWrite(once, cls, desired);
    ConfiguredTwice(Visited(requests, cls)[0], desired);
    assert Visited(Written(once, cls, desired), cls) == Visited(once, cls);
  }

  /** The device the writer and the check look at is the first the reader visits. */
  lemma {:induction false} TargetIsVisitedFirst(requests: seq<DeviceRequest>, cls: string)
    ensures TargetRequest(requests, cls).Some? <==> Visited(requests, cls) != []
    ensures TargetRequest(requests, cls).Some? ==>
              MatchIn(requests[TargetRequest(requests, cls).value], cls) == Some(Visited(requests, cls)[0])
  {
    if requests != [] && MatchIn(requests[0], cls).None? {
      TargetIsVisitedFirst(requests[1..], cls);
    }
  }

  /**
   Where the first match is all that is read and has a positive count, the check accepts a template exactly
   when what is read from it agrees with the desired configuration wherever it is stated.
   */
  lemma MatchesIffReads(requests: seq<DeviceRequest>, cls: string, desired: ResourceConfiguration)
    requires ReadsFirst(requests, cls) && Visited(requests, cls)[0].count > 0
    ensures var reading := ReadBack(requests, cls);
            && (Matches(requests, cls, desired) <==>
                  && reading.gpus == desired.gpusPerReplica
                  && (COMPUTE in reading.resources ==> reading.resources[COMPUTE] == desired.requestedCompute)
                  && (MEMORY in reading.resources ==> reading.resources[MEMORY] / GIB == desired.requestedMemoryGB))
            && (COMPUTE in reading.resources && MEMORY in reading.resources ==>
                  (Matches(requests, cls, desired) <==> ReadsExactly(reading, desired)))
  {
    var v := Visited(requests, cls);
    TargetIsVisitedFirst(requests, cls);
    AbsorbAllCons(NOTHING_READ, v[0], v[1..]);
    assert v == [v[0]] + v[1..];
    SilentAbsorbs(Absorb(NOTHING_READ, v[0]), v[1..]);
  }

  /** The last positive count of a list of devices. */
  function LastCount(devices: seq<Device>): (c: Option<int>)
    ensures c.Some? ==> c.value > 0
  {
    if devices == [] then None
    else
      var rest := LastCount(devices[1..]);
      if rest.Some? then rest else if devices[0].count > 0 then Some(devices[0].count) else None
  }

  function LastCapacity(devices: seq<Device>): Option<Capacities> {
    if devices == [] then None
    else
      var rest := LastCapacity(devices[1..]);
      if rest.Some? then rest else devices[0].capacity
  }

  lemma {:induction false} AbsorbAllIsLast(r: Reading, devices: seq<Device>)
    ensures AbsorbAll(r, devices) == Reading(
              match LastCount(devices) case Some(c) => c case None => r.gpus,
              match LastCapacity(devices) case Some(c) => c case None => r.resources)
    decreases |devices|
  {
    if devices != [] {
      AbsorbAllIsLast(Absorb(r, devices[0]), devices[1..]);
    }
  }

  lemma {:induction false} LoudTail(devices: seq<Device>)
    ensures AllSilent(devices) <==> LastCount(devices).None? && LastCapacity(devices).None?
  {
    if devices != [] {
      LoudTail(devices[1..]);
      assert AllSilent(devices) <==> Silent(devices[0]) && AllSilent(devices[1..]);
    }
  }

  /** A desired configuration that is not read back when a later device speaks up. */
  lemma SpoiledRoundTrip(requests: seq<DeviceRequest>, cls: string) returns (desired: ResourceConfiguration)
    requires TargetRequest(requests, cls).Some? && !ReadsFirst(requests, cls)
    ensures desired.Whole()
    ensures !ReadsExactly(ReadBack(Written(requests, cls, desired), cls), desired)
  {
    VisitedAfterWrite(requests, cls, ResourceConfiguration(1, 1, 0.0, 0.0));
    var tail := Visited(requests, cls)[1..];
    LoudTail(tail);
    var count, capacity := LastCount(tail), LastCapacity(tail);
    var gpus := if count.Some? then count.value + 1 else 1;
    var compute := if capacity.Some? && COMPUTE in capacity.value && capacity.value[COMPUTE] == 0.0 then 1.0 else 0.0;
    desired := ResourceConfiguration(1, gpus, compute, 0.0);
    assert desired.Whole();
    hide Visited, LastCount, LastCapacity;
    ReadBackOfWritten(requests, cls, desired);
    AbsorbAllIsLast(Absorb(NOTHING_READ, Configured(Visited(requests, cls)[0], desired)), tail);
  }

  /** Two conditions a template author can see: the first match is an Exactly, or only one request matches. */
  lemma RoundTripWhenUnambiguous(requests: seq<DeviceRequest>, cls: string)
    requires TargetRequest(requests, cls).Some?
    requires var i := TargetRequest(requests, cls).value;
             || MatchesExactly(requests[i], cls)
             || forall k :: i < k < |requests| ==> MatchIn(requests[k], cls).None?
    ensures ReadsFirst(requests, cls)
    decreases |requests|
  {
    if MatchesExactly(requests[0], cls) {
      assert Visited(requests, cls)[1..] == [];
    } else if MatchIn(requests[0], cls).Some? {
      NothingVisited(requests[1..], cls);
    } else {
      RoundTripWhenUnambiguous(requests[1..], cls);
    }
  }

  lemma {:induction false} NothingVisited(requests: seq<DeviceRequest>, cls: string)
    requires forall k :: 0 <= k < |requests| ==> MatchIn(requests[k], cls).None?
    ensures Visited(requests, cls) == []
  {
    if requests != [] {
      NothingVisited(requests[1..], cls);
    }
  }
}
