/** applySingleTimeScalingLimit: capping the change of total GPUs of one scaling step. */
module ScalingLimit {
  import opened Wrappers
  import opened RealMath
  import opened DeviceRequests
  import opened ScalingDecision

  function TotalGPUs(c: ResourceConfiguration): int { c.replicas * c.gpusPerReplica }

  /** The configuration a decision is left with; limit <= 0 or absent means no cap. */
  function Limited(current: ResourceConfiguration, desired: ResourceConfiguration, limit: int): ResourceConfiguration
    requires desired.gpusPerReplica >= 1
  {
    var change := TotalGPUs(desired) - TotalGPUs(current);
    if limit <= 0 || -limit <= change <= limit then desired
    else
      var allowed := if change > 0 then TotalGPUs(current) + limit
                     else if TotalGPUs(current) - limit < 1 then 1 else TotalGPUs(current) - limit;
      if allowed >= desired.gpusPerReplica
      then desired.(replicas := CeilDiv(allowed, desired.gpusPerReplica))
      else desired.(replicas := 1, gpusPerReplica := allowed)
  }

  function CeilDiv(a: int, b: int): int
    requires b >= 1
  {
    a / b + (if a % b > 0 then 1 else 0)
  }

  datatype Limits = Limits(scaleUp: Option<int>, scaleDown: Option<int>)

  function LimitFor(limits: Limits, action: ScalingAction): int {
    match action
    case ScaleUp => (match limits.scaleUp case Some(l) => l case None => 0)
    case ScaleDown => (match limits.scaleDown case Some(l) => l case None => 0)
    case NoAction => 0
  }

  /** scaling_action.go:295-367; the change flags of the decision are not recomputed. */
  method ApplySingleTimeScalingLimit(limits: Limits, decision: Decision)
    requires decision.desired.gpusPerReplica >= 1
    requires TotalGPUs(decision.current) >= 0
    modifies decision`desired
    ensures decision.desired == Limited(decision.current, old(decision.desired), LimitFor(limits, decision.action))
  {
    var limit: Option<int> := None;
    if decision.action == ScaleUp {
      limit := limits.scaleUp;
    } else if decision.action == ScaleDown {
      limit := limits.scaleDown;
    }
    if limit.None? || limit.value <= 0 {
      return;
    }
    var desired := decision.desired;
    var currentTotal := decision.current.replicas * decision.current.gpusPerReplica;
    var gpuChange := desired.replicas * desired.gpusPerReplica - currentTotal;
    if (if gpuChange < 0 then -gpuChange else gpuChange) > limit.value {
      var limitedTotal;
      if gpuChange > 0 {
        limitedTotal := currentTotal + limit.value;
      } else {
        limitedTotal := currentTotal - limit.value;
        if limitedTotal < 1 {
          limitedTotal := 1;
        }
      }
      if limitedTotal >= desired.gpusPerReplica {
        var replicas := limitedTotal / desired.gpusPerReplica;
        var remainder := limitedTotal % desired.gpusPerReplica;
        DivisionIsPositive(limitedTotal, desired.gpusPerReplica);
        if remainder > 0 && replicas > 0 {
          replicas := replicas + 1;
        }
        decision.desired := decision.desired.(replicas := replicas);
      } else {
        decision.desired := decision.desired.(replicas := 1, gpusPerReplica := limitedTotal);
      }
    }
  }

  lemma DivisionIsPositive(a: int, b: int)
    requires a >= b >= 1
    ensures a / b >= 1
  {
  }

  lemma CeilDivBounds(a: int, b: int)
    requires b >= 1
    ensures a <= CeilDiv(a, b) * b < a + b
    ensures CeilDiv(a, b) * b == if a % b == 0 then a else a + b - a % b
  {
  }

  /** The least multiple of b not below a is the ceiling one. */
  lemma CeilDivLeast(a: int, b: int, k: int)
    requires b >= 1 && a <= k * b
    ensures CeilDiv(a, b) <= k
  {
    CeilDivBounds(a, b);
    if CeilDiv(a, b) >= k + 1 {
      ProductMono(k + 1, CeilDiv(a, b), b, b);
    }
  }

  /** Desired configurations the claims are about. */
  predicate Proper(c: ResourceConfiguration) { c.replicas >= 1 && c.gpusPerReplica >= 1 }

  function Iterate(current: ResourceConfiguration, desired: ResourceConfiguration, limit: int, n: nat)
    : ResourceConfiguration
    requires desired.gpusPerReplica >= 1
    decreases n
  {
    if n == 0 then current else Iterate(Limited(current, desired, limit), desired, limit, n - 1)
  }

  lemma {:induction false} StaysAtDesired(desired: ResourceConfiguration, limit: int, n: nat)
    requires desired.gpusPerReplica >= 1 && limit >= 1
    ensures Iterate(desired, desired, limit, n) == desired
  {
    if n > 0 {
      StaysAtDesired(desired, limit, n - 1);
    }
  }

  lemma {:induction false} IterateFixed(c: ResourceConfiguration, d: ResourceConfiguration, limit: int, n: nat)
    requires d.gpusPerReplica >= 1 && Limited(c, d, limit) == c
    ensures Iterate(c, d, limit, n) == c
  {
    if n > 0 {
      IterateFixed(c, d, limit, n - 1);
    }
  }

  /** With matching GPUs a limited step is a change of replicas only. */
  lemma LimitedKeepsReplicas(c: ResourceConfiguration, d: ResourceConfiguration, limit: int)
    requires Proper(c) && Proper(d) && c == d.(replicas := c.replicas)
    ensures var n := Limited(c, d, limit); n == d.(replicas := n.replicas) && n.replicas >= 1
  {
  }

  /** Compute and memory are never capped, and within the limit, or without one, nothing is. */
  lemma Uncapped(current: ResourceConfiguration, desired: ResourceConfiguration, limit: int)
    requires desired.gpusPerReplica >= 1
    ensures var next := Limited(current, desired, limit);
            && next.requestedCompute == desired.requestedCompute && next.requestedMemoryGB == desired.requestedMemoryGB
            && (limit <= 0 || -limit <= TotalGPUs(desired) - TotalGPUs(current) <= limit ==> next == desired)
  {
  }

  // ---------- scaling up ----------

  /** A capped step up adds at least the limit, less than the limit plus one replica, and never overshoots. */
  lemma CappedUp(current: ResourceConfiguration, desired: ResourceConfiguration, limit: int)
    requires Proper(desired) && limit >= 1 && TotalGPUs(current) >= 0
    requires TotalGPUs(desired) - TotalGPUs(current) > limit
    ensures var next := TotalGPUs(Limited(current, desired, limit));
            && TotalGPUs(current) + limit <= next < TotalGPUs(current) + limit + desired.gpusPerReplica
            && next <= TotalGPUs(desired)
  {
    var allowed := TotalGPUs(current) + limit;
    if allowed >= desired.gpusPerReplica {
      CeilDivBounds(allowed, desired.gpusPerReplica);
      CeilDivLeast(allowed, desired.gpusPerReplica, desired.replicas);
      ProductMono(CeilDiv(allowed, desired.gpusPerReplica), desired.replicas,
                  desired.gpusPerReplica, desired.gpusPerReplica);
    }
  }

  /**
   A capped step up lands on exactly current + limit GPUs in one replica when they are fewer than a desired replica
   has; otherwise on desired replicas, the fewest that reach current + limit. Only rounding up to whole desired
   replicas goes beyond the limit.
   */
  lemma CappedUpExactly(current: ResourceConfiguration, desired: ResourceConfiguration, limit: int)
    requires Proper(desired) && limit >= 1 && TotalGPUs(current) >= 0
    requires TotalGPUs(desired) - TotalGPUs(current) > limit
    ensures var next, g := Limited(current, desired, limit), desired.gpusPerReplica;
            if TotalGPUs(current) + limit < g
            then next.replicas == 1 && next.gpusPerReplica == TotalGPUs(current) + limit
            else
              && next.gpusPerReplica == g && TotalGPUs(next) >= TotalGPUs(current) + limit
              && forall k: int :: k * g >= TotalGPUs(current) + limit ==> next.replicas <= k
    ensures var next := Limited(current, desired, limit);
            TotalGPUs(next) > TotalGPUs(current) + limit ==>
              next.gpusPerReplica == desired.gpusPerReplica
              && TotalGPUs(next) - desired.gpusPerReplica < TotalGPUs(current) + limit
  {
    var allowed, g := TotalGPUs(current) + limit, desired.gpusPerReplica;
    if allowed >= g {
      CeilDivBounds(allowed, g);
      forall k: int | k * g >= allowed
        ensures CeilDiv(allowed, g) <= k
      {
        CeilDivLeast(allowed, g, k);
      }
      hide CeilDiv;
    }
  }

  /** Once n steps of the limit cover the gap, n steps reach the desired configuration exactly. */
  lemma {:induction false} UpReachesDesired(current: ResourceConfiguration, desired: ResourceConfiguration,
                                            limit: int, n: nat)
    requires Proper(desired) && limit >= 1 && 0 <= TotalGPUs(current) <= TotalGPUs(desired)
    requires n >= 1 && n * limit >= TotalGPUs(desired) - TotalGPUs(current)
    ensures Iterate(current, desired, limit, n) == desired
    decreases n
  {
    if TotalGPUs(desired) - TotalGPUs(current) <= limit {
      StaysAtDesired(desired, limit, n - 1);
    } else {
      CappedUp(current, desired, limit);
      assert n * limit == (n - 1) * limit + limit;
      UpReachesDesired(Limited(current, desired, limit), desired, limit, n - 1);
    }
  }

  // ---------- scaling down ----------

  /** A capped step down goes to the least multiple of the desired GPUs per replica at or above current - limit. */
  lemma CappedDown(current: ResourceConfiguration, desired: ResourceConfiguration, limit: int)
    requires Proper(desired) && limit >= 1
    requires TotalGPUs(current) - TotalGPUs(desired) > limit
    ensures var next := Limited(current, desired, limit);
            && next.gpusPerReplica == desired.gpusPerReplica
            && TotalGPUs(current) - limit <= TotalGPUs(next) < TotalGPUs(current) - limit + desired.gpusPerReplica
            && TotalGPUs(next) >= TotalGPUs(desired)
            && next.replicas == CeilDiv(TotalGPUs(current) - limit, desired.gpusPerReplica)
  {
  }

  /**
   When the capped step down lowers the GPU total at all: the part by which rounding up overshoots
   current - limit must stay below the limit. Otherwise the "scale-down" keeps or even adds GPUs.
   */
  lemma CappedDownLowersIff(current: ResourceConfiguration, desired: ResourceConfiguration, limit: int)
    requires Proper(desired) && limit >= 1
    requires TotalGPUs(current) - TotalGPUs(desired) > limit
    ensures var over := (TotalGPUs(current) - limit) % desired.gpusPerReplica;
            TotalGPUs(Limited(current, desired, limit)) < TotalGPUs(current) <==>
              (over == 0 || desired.gpusPerReplica - over < limit)
  {
  }

  /** Ten single-GPU replicas asked down to one 8-GPU replica, one GPU at a time, become sixteen GPUs. */
  lemma ScaleDownThatGrows()
    ensures var current := ResourceConfiguration(10, 1, 50.0, 8.0);
            var desired := ResourceConfiguration(1, 8, 50.0, 8.0);
            && Decide(current, desired, map[], 0.0).action == ScaleDown
            && TotalGPUs(desired) == 8 && TotalGPUs(Limited(current, desired, 1)) == 16
  {
  }

  /** With the GPUs per replica already right, a capped step changes nothing exactly when the limit is below them. */
  lemma CappedDownStuckIff(current: ResourceConfiguration, desired: ResourceConfiguration, limit: int)
    requires Proper(desired) && limit >= 1 && current.gpusPerReplica == desired.gpusPerReplica
    requires TotalGPUs(current) - TotalGPUs(desired) > limit
    ensures Limited(current, desired, limit).replicas == current.replicas <==> limit < desired.gpusPerReplica
  {
    CappedDown(current, desired, limit);
    hide *;
    RoundsBackUp(current.replicas, desired.gpusPerReplica, limit);
  }

  /** r*g - l divided by g and rounded up is r again exactly when l stays below g. */
  lemma RoundsBackUp(r: int, g: int, l: int)
    requires g >= 1 && l >= 1 && r * g - l >= 0
    ensures CeilDiv(r * g - l, g) == r <==> l < g
  {
    CeilDivBounds(r * g - l, g);
    var c := CeilDiv(r * g - l, g);
    hide *;
    if l < g {
      if c < r {
        assert (r - 1) * g == r * g - g;
        ProductMono(c, r - 1, g, g);
      } else if c > r {
        assert (c - 1) * g == c * g - g;
        ProductMono(r, c - 1, g, g);
      }
    }
  }

  /** A limit of at least one replica's GPUs makes every step progress, down to exactly the desired configuration. */
  lemma {:induction false} DownReachesDesired(current: ResourceConfiguration, desired: ResourceConfiguration,
                                              limit: int, n: nat)
    requires Proper(desired) && limit >= desired.gpusPerReplica && TotalGPUs(current) >= TotalGPUs(desired)
    requires n >= 1 && n * (limit - desired.gpusPerReplica + 1) >= TotalGPUs(current) - TotalGPUs(desired)
    ensures Iterate(current, desired, limit, n) == desired
    decreases n
  {
    var pace := limit - desired.gpusPerReplica + 1;
    if TotalGPUs(current) - TotalGPUs(desired) <= limit {
      StaysAtDesired(desired, limit, n - 1);
    } else {
      CappedDown(current, desired, limit);
      assert n * pace == (n - 1) * pace + pace;
      assert n == 1 ==> n * pace <= limit;
      DownReachesDesired(Limited(current, desired, limit), desired, limit, n - 1);
    }
  }

  /**
   So from any configuration further above the desired one than the limit, iterated capped steps reach the
   desired one exactly when the limit is at least its GPUs per replica.
   */
  lemma DownArrivesIff(current: ResourceConfiguration, desired: ResourceConfiguration, limit: int)
    requires Proper(desired) && limit >= 1 && TotalGPUs(current) - TotalGPUs(desired) > limit
    ensures limit >= desired.gpusPerReplica <==> exists n: nat :: Iterate(current, desired, limit, n) == desired
  {
    var gap: nat := TotalGPUs(current) - TotalGPUs(desired);
    if limit >= desired.gpusPerReplica {
      ProductMono(1, limit - desired.gpusPerReplica + 1, gap, gap);
      hide TotalGPUs, Iterate;
      DownReachesDesired(current, desired, limit, gap);
    } else {
      var next := Limited(current, desired, limit);
      FirstStepIsLast(current, desired, limit);
      hide TotalGPUs, Limited;
      forall n: nat
        ensures Iterate(current, desired, limit, n) != desired
      {
        if n > 0 {
          IterateFixed(next, desired, limit, n - 1);
        }
      }
    }
  }

  /** Below that the first capped step goes to a configuration above the desired one and no further step leaves it. */
  lemma FirstStepIsLast(current: ResourceConfiguration, desired: ResourceConfiguration, limit: int)
    requires Proper(desired) && 1 <= limit < desired.gpusPerReplica
    requires TotalGPUs(current) - TotalGPUs(desired) > limit
    ensures var next := Limited(current, desired, limit);
            next.replicas > desired.replicas && Limited(next, desired, limit) == next
  {
    var next, g := Limited(current, desired, limit), desired.gpusPerReplica;
    CappedDown(current, desired, limit);
    assert next == desired.(replicas := next.replicas);
    MultiplesApart(next.replicas, desired.replicas, g);
    hide CeilDiv, Limited;
    CappedDownStuckIff(next, desired, limit);
    LimitedKeepsReplicas(next, desired, limit);
  }

  lemma MultiplesApart(a: int, b: int, g: int)
    requires g >= 1 && a * g > b * g
    ensures a > b && a * g - b * g >= g
  {
    if a <= b {
      ProductMono(a, b, g, g);
    } else {
      ProductMono(b + 1, a, g, g);
    }
  }

  /**
   The flags are computed before the cap, so a capped GPU count would be lost in a replica-only
   change; it never is one when the GPUs per replica agreed beforehand.
   */
  lemma CapKeepsMatchingGPUs(current: ResourceConfiguration, desired: ResourceConfiguration, limit: int)
    requires Proper(current) && Proper(desired) && current.gpusPerReplica == desired.gpusPerReplica
    ensures Limited(current, desired, limit).gpusPerReplica == desired.gpusPerReplica
  {
  }
}
