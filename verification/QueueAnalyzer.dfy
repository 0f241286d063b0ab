/**
 internal/optimizer/queue.go and latency.go: adding M/M/c figures to a latency estimate.
 Milliseconds everywhere except where a name says seconds, as in the source.
 */
module QueueAnalyzer {
  import opened RealMath
  import opened Erlang

  /** A float64 result that may be +Inf: the wait formula divides by serviceRate - arrivalRate. */
  datatype Extended = Finite(v: real) | PosInf {
    predicate Exceeds(bound: real) {
      PosInf? || v > bound
    }

    predicate AtMost(other: Extended) {
      other.PosInf? || (Finite? && v <= other.v)
    }
  }

  /** The value of a LatencyResult struct, as it is copied into a configuration. */
  datatype LatencyFigures = LatencyFigures(
    itl: real,
    prefill: real,
    decode: real,
    kvCacheReduction: real,
    allocationImpact: real,
    ttft: real := 0.0,
    e2e: Extended := Finite(0.0),
    utilization: real := 0.0,
    serviceTimeSeconds: real := 0.0,
    avgQueueLength: Extended := Finite(0.0),
    avgSystemLength: Extended := Finite(0.0),
    probabilityOfWait: real := 0.0)
  {
    function ServiceTime(): real { prefill + decode }

    function ServiceSeconds(): real { ServiceTime() / 1000.0 }
  }

  // ---------- what the analyzer means ----------

  /** The offered load in servers: arrivalRate * serviceTime. */
  function Load(arrivalRate: real, seconds: real): real {
    arrivalRate * seconds
  }

  /** The wait in seconds the code derives from erlangC; +Inf where it divides by zero. */
  function WaitSeconds(arrivalRate: real, seconds: real, servers: nat): Extended
    requires arrivalRate >= 0.0 && seconds >= 0.0
  {
    LoadNonNeg(arrivalRate, seconds);
    var rho := Load(arrivalRate, seconds);
    var p := WaitFactor(rho, servers);
    if p <= 0.0 then Finite(0.0)
    else if rho == 1.0 then PosInf
    else Finite(seconds * seconds * (p / (1.0 - rho)))
  }

  function EndToEnd(arrivalRate: real, seconds: real, servers: nat): Extended
    requires arrivalRate >= 0.0 && seconds >= 0.0
  {
    Milliseconds(WaitSeconds(arrivalRate, seconds, servers), seconds)
  }

  function Milliseconds(wait: Extended, seconds: real): Extended {
    match wait
    case PosInf => PosInf
    case Finite(w) => Finite(1000.0 * (w + seconds))
  }

  predicate Stable(arrivalRate: real, seconds: real, servers: nat) {
    Load(arrivalRate, seconds) < servers as real
  }

  lemma LoadNonNeg(arrivalRate: real, seconds: real)
    requires arrivalRate >= 0.0 && seconds >= 0.0
    ensures Load(arrivalRate, seconds) >= 0.0
  {
  }

  // ---------- the code ----------

  /** The LatencyResult a caller passes by pointer and AddQueuingResults writes into. */
  class LatencyResult {
    var itl: real
    var prefill: real
    var decode: real
    var kvCacheReduction: real
    var allocationImpact: real
    var ttft: real
    var e2e: Extended
    var utilization: real
    var serviceTimeSeconds: real
    var avgQueueLength: Extended
    var avgSystemLength: Extended
    var probabilityOfWait: real

    constructor (figures: LatencyFigures)
      ensures Figures() == figures
    {
      itl, prefill, decode := figures.itl, figures.prefill, figures.decode;
      kvCacheReduction, allocationImpact := figures.kvCacheReduction, figures.allocationImpact;
      ttft, e2e, utilization := figures.ttft, figures.e2e, figures.utilization;
      serviceTimeSeconds := figures.serviceTimeSeconds;
      avgQueueLength, avgSystemLength := figures.avgQueueLength, figures.avgSystemLength;
      probabilityOfWait := figures.probabilityOfWait;
    }

    function Figures(): LatencyFigures
      reads this
    {
      LatencyFigures(itl, prefill, decode, kvCacheReduction, allocationImpact, ttft, e2e, utilization,
                     serviceTimeSeconds, avgQueueLength, avgSystemLength, probabilityOfWait)
    }
  }

  /** What a successful or failed call leaves in the struct, in closed form. */
  function Queued(arrivalRate: real, servers: nat, f: LatencyFigures): LatencyFigures
    requires arrivalRate >= 0.0 && f.ServiceTime() >= 0.0 && servers >= 1
  {
    var seconds := f.ServiceSeconds();
    var timed := f.(serviceTimeSeconds := seconds);
    if !Stable(arrivalRate, seconds, servers) then timed
    else
      LoadNonNeg(arrivalRate, seconds);
      var p := WaitFactor(Load(arrivalRate, seconds), servers);
      var done := timed.(utilization := Load(arrivalRate, seconds) / servers as real,
                         ttft := f.prefill, e2e := EndToEnd(arrivalRate, seconds, servers));
      if p <= 0.0 then done
      else
        var wait := WaitSeconds(arrivalRate, seconds, servers);
        done.(probabilityOfWait := p, avgQueueLength := Population(arrivalRate, wait, 0.0),
              avgSystemLength := Population(arrivalRate, wait, seconds))
  }

  /** Little's law over a wait plus a service time. */
  function Population(arrivalRate: real, wait: Extended, seconds: real): Extended {
    match wait
    case PosInf => PosInf
    case Finite(w) => Finite(arrivalRate * (w + seconds))
  }

  class QueueAnalyzer {
    var arrivalRate: real

    constructor (rate: real)
      ensures arrivalRate == rate
    {
      arrivalRate := rate;
    }

    /**
     Fails exactly when the load reaches the server count, and then only the service time has
     been recorded. A zero service time makes the service rate +Inf in the source, hence zero load.
     */
    method AddQueuingResults(numServers: nat, results: LatencyResult) returns (ok: bool)
      requires numServers >= 1 && arrivalRate >= 0.0 && results.Figures().ServiceTime() >= 0.0
      modifies results
      ensures ok <==> Stable(arrivalRate, old(results.Figures()).ServiceSeconds(), numServers)
      ensures results.Figures() == Queued(arrivalRate, numServers, old(results.Figures()))
    {
      hide WaitFactor;
      var serviceTimeMS := results.prefill + results.decode;
      var serviceTimeSeconds := serviceTimeMS / 1000.0;
      results.serviceTimeSeconds := serviceTimeSeconds;
      LoadNonNeg(arrivalRate, serviceTimeSeconds);
      var serviceRate, utilization, rho := Rates(serviceTimeSeconds, numServers);
      if utilization >= 1.0 {
        return false;
      }
      results.utilization := utilization;

      var probabilityOfWait := ErlangC(rho, numServers);
      var queueWaitTime := Finite(0.0);
      if probabilityOfWait > 0.0 {
        assert rho > 0.0 by { NoLoadNoWait(rho, numServers); }
        var queueWait := QueueWait(serviceRate, serviceTimeSeconds, numServers, probabilityOfWait);
        queueWaitTime := RecordWait(queueWait, serviceTimeSeconds, probabilityOfWait, results);
      }
      results.ttft := results.prefill;
      results.e2e := match queueWaitTime
        case PosInf => PosInf
        case Finite(w) => Finite(w + results.ttft + results.decode);
      ok := true;
    }

    /** queue.go:45-48: the queue figures of a wait, and the wait in milliseconds. */
    method RecordWait(queueWait: Extended, seconds: real, p: real, results: LatencyResult)
      returns (milliseconds: Extended)
      modifies results
      ensures results.Figures() == old(results.Figures()).(
                probabilityOfWait := p, avgQueueLength := Population(arrivalRate, queueWait, 0.0),
                avgSystemLength := Population(arrivalRate, queueWait, seconds))
      ensures milliseconds == if queueWait.PosInf? then PosInf else Finite(queueWait.v * 1000.0)
    {
      match queueWait {
        case PosInf =>
          milliseconds := PosInf;
          results.avgQueueLength := PosInf;
          results.avgSystemLength := PosInf;
        case Finite(queueWaitSeconds) =>
          milliseconds := Finite(queueWaitSeconds * 1000.0);
          results.avgQueueLength := Finite(arrivalRate * queueWaitSeconds);
          results.avgSystemLength := Finite(arrivalRate * (queueWaitSeconds + seconds));
      }
      assert results.avgQueueLength == Population(arrivalRate, queueWait, 0.0);
      assert results.avgSystemLength == Population(arrivalRate, queueWait, seconds);
      results.probabilityOfWait := p;
    }

    /** queue.go:26-30 and 38; a zero service time stands for an infinite service rate. */
    method Rates(seconds: real, servers: nat) returns (serviceRate: real, utilization: real, rho: real)
      requires seconds >= 0.0 && servers >= 1
      ensures seconds > 0.0 ==> serviceRate == 1.0 / seconds
      ensures rho == Load(arrivalRate, seconds)
      ensures utilization == Load(arrivalRate, seconds) / servers as real
      ensures utilization >= 1.0 <==> !Stable(arrivalRate, seconds, servers)
    {
      serviceRate, utilization, rho := 0.0, 0.0, 0.0;
      if seconds > 0.0 {
        RateOfLoad(arrivalRate, seconds, servers as real);
        serviceRate := 1.0 / seconds;
        utilization := arrivalRate / (servers as real * serviceRate);
        rho := arrivalRate / serviceRate;
      }
      QuotientLe(1.0, rho, 1.0, servers as real);
    }

    /** The quotient of queue.go:44, +Inf when its divisor is zero. */
    method QueueWait(serviceRate: real, seconds: real, servers: nat, p: real) returns (wait: Extended)
      requires seconds > 0.0 && serviceRate == 1.0 / seconds
      requires arrivalRate >= 0.0 && Load(arrivalRate, seconds) > 0.0
      requires p > 0.0 && p == WaitFactor(Load(arrivalRate, seconds), servers)
      ensures wait == WaitSeconds(arrivalRate, seconds, servers)
    {
      hide WaitFactor;
      RateGap(arrivalRate, seconds, p);
      if serviceRate == arrivalRate {
        return PosInf;
      }
      return Finite((p / (serviceRate - arrivalRate)) * seconds);
    }
  }

  lemma RateOfLoad(arrivalRate: real, seconds: real, servers: real)
    requires seconds > 0.0 && servers >= 1.0
    ensures 1.0 / seconds > 0.0 && servers * (1.0 / seconds) > 0.0
    ensures arrivalRate / (1.0 / seconds) == arrivalRate * seconds
    ensures arrivalRate / (servers * (1.0 / seconds)) == (arrivalRate * seconds) / servers
  {
  }

  lemma NoLoadNoWait(rho: real, servers: nat)
    requires 0.0 <= rho < servers as real && servers >= 1 && WaitFactor(rho, servers) > 0.0
    ensures rho > 0.0
  {
  }

  /** The code's wait, (p / (1/T - a)) * T, is T*T*p/(1-aT). */
  lemma RateGap(a: real, t: real, p: real)
    requires t >= 0.0 && a * t > 0.0
    ensures t > 0.0
    ensures 1.0 / t == a <==> a * t == 1.0
    ensures a * t != 1.0 ==> (p / (1.0 / t - a)) * t == t * t * (p / (1.0 - a * t))
  {
  }

  /**
   What a stable call leaves: the estimate as it was, the load per server, and queue figures that obey Little's law:
   arrivals times the wait are in the queue, and the system holds as many more as the load. All are infinite at a
   load of one; without load there is no wait.
   */
  lemma QueueFigures(arrivalRate: real, servers: nat, f: LatencyFigures)
    requires arrivalRate >= 0.0 && f.ServiceTime() >= 0.0 && servers >= 1
    requires Stable(arrivalRate, f.ServiceSeconds(), servers)
    ensures var q := Queued(arrivalRate, servers, f);
            var load := Load(arrivalRate, q.serviceTimeSeconds);
            && (q.itl, q.prefill, q.decode, q.kvCacheReduction, q.allocationImpact)
               == (f.itl, f.prefill, f.decode, f.kvCacheReduction, f.allocationImpact)
            && q.ttft == f.prefill && q.serviceTimeSeconds * 1000.0 == f.prefill + f.decode
            && q.utilization * servers as real == load
            && (load == 0.0 ==> q.e2e == Finite(f.prefill + f.decode))
            && (load == 1.0 ==> q.e2e == q.avgQueueLength == q.avgSystemLength == PosInf)
            && (load > 0.0 && load != 1.0 ==>
                  && q.e2e.Finite? && q.avgQueueLength.Finite? && q.avgSystemLength.Finite?
                  && arrivalRate * (q.e2e.v - (f.prefill + f.decode)) == 1000.0 * q.avgQueueLength.v
                  && q.avgSystemLength.v == q.avgQueueLength.v + load)
  {
    var seconds, total := f.ServiceSeconds(), f.prefill + f.decode;
    QueuedParts(arrivalRate, servers, f);
    WaitCases(arrivalRate, seconds, servers);
    ShareTimes(Load(arrivalRate, seconds), servers as real);
    var wait := WaitSeconds(arrivalRate, seconds, servers);
    assert seconds * 1000.0 == total;
    if wait.Finite? {
      LittleLaw(arrivalRate, wait.v, seconds, total);
    }
    hide Queued, WaitSeconds, WaitFactor, Load, LatencyFigures.ServiceSeconds, LatencyFigures.ServiceTime, Stable;
  }

  lemma WaitCases(arrivalRate: real, seconds: real, servers: nat)
    requires arrivalRate >= 0.0 && seconds >= 0.0 && servers >= 1 && Stable(arrivalRate, seconds, servers)
    ensures var load, wait := Load(arrivalRate, seconds), WaitSeconds(arrivalRate, seconds, servers);
            && load >= 0.0 && (load > 0.0 <==> WaitFactor(load, servers) > 0.0)
            && (load == 0.0 ==> wait == Finite(0.0)) && (wait.PosInf? <==> load == 1.0)
  {
    LoadNonNeg(arrivalRate, seconds);
    WaitFactorZeroOnlyIdle(Load(arrivalRate, seconds), servers);
    hide WaitFactor, Load;
  }

  lemma ShareTimes(x: real, n: real)
    requires n > 0.0
    ensures (x / n) * n == x
  {
  }

  lemma QueuedParts(arrivalRate: real, servers: nat, f: LatencyFigures)
    requires arrivalRate >= 0.0 && f.ServiceTime() >= 0.0 && servers >= 1
    requires Stable(arrivalRate, f.ServiceSeconds(), servers)
    ensures var q, seconds := Queued(arrivalRate, servers, f), f.ServiceSeconds();
            && (q.itl, q.prefill, q.decode, q.kvCacheReduction, q.allocationImpact)
               == (f.itl, f.prefill, f.decode, f.kvCacheReduction, f.allocationImpact)
            && q.ttft == f.prefill && q.serviceTimeSeconds == seconds
            && q.utilization == Load(arrivalRate, seconds) / servers as real
            && q.e2e == Milliseconds(WaitSeconds(arrivalRate, seconds, servers), seconds)
            && (WaitFactor(Load(arrivalRate, seconds), servers) > 0.0 ==>
                  var wait := WaitSeconds(arrivalRate, seconds, servers);
                  && q.avgQueueLength == Population(arrivalRate, wait, 0.0)
                  && q.avgSystemLength == Population(arrivalRate, wait, seconds))
  {
    hide WaitFactor, WaitSeconds, Load, Population, Milliseconds;
  }

  lemma LittleLaw(a: real, wait: real, seconds: real, total: real)
    requires seconds * 1000.0 == total
    ensures a * (1000.0 * (wait + seconds) - total) == 1000.0 * (a * (wait + 0.0))
    ensures a * (wait + seconds) == a * (wait + 0.0) + Load(a, seconds)
  {
  }

  // ---------- what the formula does and does not promise ----------

  /** Below one server's worth of load the wait is a genuine delay. */
  lemma WaitNonNegative(arrivalRate: real, seconds: real, servers: nat)
    requires arrivalRate >= 0.0 && seconds >= 0.0 && servers >= 1
    requires Load(arrivalRate, seconds) < 1.0
    ensures WaitSeconds(arrivalRate, seconds, servers).Finite?
    ensures WaitSeconds(arrivalRate, seconds, servers).v >= 0.0
  {
    var rho := Load(arrivalRate, seconds);
    LoadNonNeg(arrivalRate, seconds);
    WaitFactorGrowth(rho, rho, servers);
    DivMono(0.0, WaitFactor(rho, servers), 1.0 - rho);
    MulMono2(0.0, seconds * seconds, 0.0, WaitFactor(rho, servers) / (1.0 - rho));
  }

  /** There, wait and end-to-end latency never drop when service or arrivals get heavier. */
  lemma WaitMonotone(a1: real, t1: real, a2: real, t2: real, servers: nat)
    requires 0.0 <= a1 <= a2 && 0.0 <= t1 <= t2 && servers >= 1
    requires Load(a2, t2) < 1.0
    ensures WaitSeconds(a1, t1, servers).AtMost(WaitSeconds(a2, t2, servers))
    ensures EndToEnd(a1, t1, servers).AtMost(EndToEnd(a2, t2, servers))
  {
    MulMono2(a1, a2, t1, t2);
    WaitNonNegative(a1, t1, servers);
    WaitNonNegative(a2, t2, servers);
    var r1, r2 := Load(a1, t1), Load(a2, t2);
    WaitFactorGrowth(r1, r2, servers);
    MulMono2(t1, t2, t1, t2);
    DivMono(0.0, WaitFactor(r1, servers), 1.0 - r1);
    MulMono2(t1 * t1, t2 * t2, WaitFactor(r1, servers) / (1.0 - r1), WaitFactor(r2, servers) / (1.0 - r2));
    WaitFactorZeroOnlyIdle(r1, servers);
    WaitFactorZeroOnlyIdle(r2, servers);
  }

  /** On a stable system erlangC is zero only without load. */
  lemma WaitFactorZeroOnlyIdle(rho: real, servers: nat)
    requires 0.0 <= rho < servers as real && servers >= 1
    ensures WaitFactor(rho, servers) >= 0.0
    ensures WaitFactor(rho, servers) == 0.0 <==> rho == 0.0
  {
    WaitFactorQuotient(rho, servers);
    TermNonNeg(rho, servers);
    DivMono(0.0, Term(rho, servers), Normaliser(rho, servers));
    if rho == 0.0 {
      assert Pow(0.0, servers) == 0.0;
    } else {
      assert WaitFactor(rho, servers) * Normaliser(rho, servers) == Term(rho, servers);
    }
  }

  /**
   The defect of dividing by one server's spare rate: with several servers, a stable system
   gets a negative wait exactly when its load exceeds one server, and an infinite one at one.
   */
  lemma WaitSign(arrivalRate: real, seconds: real, servers: nat)
    requires arrivalRate >= 0.0 && seconds >= 0.0 && servers >= 1
    requires Stable(arrivalRate, seconds, servers)
    ensures var w := WaitSeconds(arrivalRate, seconds, servers);
            && (w.PosInf? <==> Load(arrivalRate, seconds) == 1.0)
            && (w.Finite? && w.v < 0.0 <==> Load(arrivalRate, seconds) > 1.0)
  {
    var rho := Load(arrivalRate, seconds);
    LoadNonNeg(arrivalRate, seconds);
    if rho < 1.0 {
      WaitNonNegative(arrivalRate, seconds, servers);
    } else {
      WaitFactorZeroOnlyIdle(rho, servers);
      assert seconds > 0.0;
      if rho > 1.0 {
        NegativeProduct(seconds, WaitFactor(rho, servers), 1.0 - rho);
      }
    }
  }

  lemma NegativeProduct(t: real, p: real, d: real)
    requires t > 0.0 && p > 0.0 && d < 0.0
    ensures t * t * (p / d) < 0.0
  {
  }

  /** One server: the estimate is T + rho*T*T, against T + rho*T/(1-rho) for a true M/M/1 queue. */
  lemma SingleServer(arrivalRate: real, seconds: real)
    requires arrivalRate >= 0.0 && seconds >= 0.0 && Stable(arrivalRate, seconds, 1)
    ensures var rho := Load(arrivalRate, seconds);
            && WaitFactor(rho, 1) == rho * (1.0 - rho)
            && WaitSeconds(arrivalRate, seconds, 1) == Finite(seconds * seconds * rho)
  {
    hide WaitFactor;
    var rho := Load(arrivalRate, seconds);
    LoadNonNeg(arrivalRate, seconds);
    SingleServerFactor(rho);
    WaitFactorZeroOnlyIdle(rho, 1);
    if rho > 0.0 {
      Cancel(WaitFactor(rho, 1) / (1.0 - rho), rho, 1.0 - rho);
    }
  }

  lemma SingleServerFactor(rho: real)
    requires 0.0 <= rho < 1.0
    ensures WaitFactor(rho, 1) == rho * (1.0 - rho)
  {
    var b, w := ErlangB(rho, 1), WaitFactor(rho, 1);
    assert b == (rho * ErlangB(rho, 0)) / (1.0 + rho * ErlangB(rho, 0));
    assert rho * ErlangB(rho, 0) == rho;
    hide *;
    WaitFactorViaErlangB(rho, 1);
    assert rho / 1 as real == rho;
    SingleServerShare(rho, b, w);
  }

  lemma SingleServerShare(rho: real, b: real, w: real)
    requires 0.0 <= rho < 1.0 && b == rho / (1.0 + rho)
    requires 1.0 - rho + rho * b > 0.0 && w == ((1.0 - rho) * b) / (1.0 - rho + rho * b)
    ensures w == rho * (1.0 - rho)
  {
  }
}
