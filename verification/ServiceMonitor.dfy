/**
 The serviceMonitor object of internal/monitor/service_monitor.go. Each method is one critical
 section or one select case, written step by step, and is shown to be exactly one step of MonitorModel,
 so what holds over the model's runs holds of every interleaving of these methods.
 */
module ServiceMonitor {
  import opened Wrappers
  import opened MonitorModel

  class ServiceMonitor {
    var started: bool
    var parentLive: bool
    var registered: map<string, nat>
    var events: seq<Event>
    var timers: map<nat, Timer>
    var nextTimer: nat
    var panicked: bool

    ghost function Current(): State
      reads this
    {
      State(started, parentLive, registered, events, timers, nextTimer, panicked)
    }

    constructor ()
      ensures Current() == INIT
    {
      started, parentLive, registered, events, timers, nextTimer, panicked := false, false, map[], [], map[], 0, false;
    }

    /** Fails when already started. */
    method Start() returns (ok: bool)
      modifies this
      ensures ok == !old(started)
      ensures Current() == Next(old(Current()), MonitorModel.Start)
    {
      if started {
        return false;
      }
      started, parentLive := true, true;
      return true;
    }

    method IsRegistered(name: string, namespace: string) returns (isRegistered: bool)
      ensures isRegistered == (Key(name, namespace) in registered)
    {
      isRegistered := Key(name, namespace) in registered;
    }

    method StopTimer(e: nat)
      requires e < |events|
      modifies this`timers
      ensures timers == Without(old(timers), events[e].timer)
    {
      timers := Without(timers, events[e].timer);
    }

    /** close(triggerChan): closing it again panics. */
    method CloseChannel(e: nat)
      requires e < |events|
      modifies this`events, this`panicked
      ensures events == old(events)[e := old(events)[e].(open := false)]
      ensures panicked == (old(panicked) || !old(events)[e].open)
    {
      if !events[e].open {
        panicked := true;
      }
      events := events[e := events[e].(open := false)];
    }

    /** time.AfterFunc with a context derived from sm.ctx: a nil context panics. */
    method ArmTimer(e: nat)
      requires e < |events|
      modifies this`events, this`timers, this`nextTimer, this`panicked
      ensures events == old(events)[e := old(events)[e].(timer := old(nextTimer), stalled := false)]
      ensures timers == old(timers)[old(nextTimer) := Timer(e, !parentLive)]
      ensures nextTimer == old(nextTimer) + 1
      ensures panicked == (old(panicked) || !started)
    {
      if !started {
        panicked := true;
      }
      timers := timers[nextTimer := Timer(e, !parentLive)];
      events := events[e := events[e].(timer := nextTimer, stalled := false)];
      nextTimer := nextTimer + 1;
    }

    /** The context every event and timer context derives from is cancelled. */
    method CancelContext()
      modifies this`events, this`timers
      ensures Current() == CancelAll(old(Current()))
    {
      var i := 0;
      while i < |events|
        invariant i <= |events| == |old(events)| && timers == old(timers)
        invariant forall j :: 0 <= j < |events| ==>
                    events[j] == if j < i then old(events)[j].(monitorDone := true) else old(events)[j]
      {
        events := events[i := events[i].(monitorDone := true)];
        i := i + 1;
      }
      timers := map t | t in timers :: timers[t].(cancelled := true);
      assert events == CancelAll(old(Current())).events;
      assert timers == CancelAll(old(Current())).timers;
    }

    /** Stops the timer of a registered event, closes its channel and removes its name. */
    method Discard(key: string)
      requires key in registered && registered[key] < |events|
      modifies this`timers, this`events, this`panicked, this`registered
      ensures Current() == Retire(old(Current()), old(registered)[key]).(registered := Without(old(registered), key))
      ensures |registered.Keys| < |old(registered).Keys|
    {
      StopTimer(registered[key]);
      CloseChannel(registered[key]);
      registered := Without(registered, key);
      assert registered.Keys == old(registered).Keys - {key};
    }

    /** Cancels the context, then retires the events in whatever order the map is ranged over. */
    method Stop()
      requires Safe(Current())
      modifies this
      ensures Current() == Next(old(Current()), MonitorModel.Stop)
      ensures Safe(Current())
    {
      StopSafe(Current());
      if !started {
        return;
      }
      PartStart(Current());
      hide Part, Safe, StopStep, RetireAll, CancelAll, Retire;
      CancelContext();
      started, parentLive := false, false;
      ghost var c := CancelAll(old(Current()));
      ghost var done: set<nat> := {};
      while registered != map[]
        invariant Part(c, done, Current())
        decreases |registered.Keys|
      {
        var key :| key in registered;
        PartStep(c, done, Current(), key);
        done := done + {registered[key]};
        Discard(key);
      }
      PartEnd(old(Current()), done, Current());
    }

    /** A new channel, context, timer and loop, recorded under the name. */
    method AddEvent(key: string, hasSpec: bool)
      modifies this
      ensures Current() == NewEvent(old(Current()), key, hasSpec)
    {
      events := events + [Event(key, true, None, hasSpec, nextTimer, !parentLive, Waiting, 0, false)];
      ArmTimer(|events| - 1);
      registered := registered[key := |events| - 1];
    }

    /** Precondition: Start must have been called before use. */
    method RegisterWithCollector(name: string, namespace: string, hasSpec: bool)
      requires started && Safe(Current())
      modifies this
      ensures Current() == Next(old(Current()), Register(Key(name, namespace), hasSpec))
      ensures Safe(Current())
    {
      var key := Key(name, namespace);
      SafeStep(Current(), Register(key, hasSpec));
      assert key in registered ==> registered[key] < |events|;
      hide Safe;
      if key in registered {
        CancelExisting(registered[key]);
      }
      AddEvent(key, hasSpec);
    }

    /** service_monitor.go:208-222: timer and loop of the event being replaced are told to stop. */
    method CancelExisting(e: nat)
      requires e < |events|
      modifies this`timers, this`events, this`panicked
      ensures var r := Retire(old(Current()), e);
              Current() == r.(events := r.events[e := r.events[e].(monitorDone := true)])
    {
      StopTimer(e);
      events := events[e := events[e].(monitorDone := true)];
      CloseChannel(e);
      assert events == Retire(old(Current()), e).events[e := events[e]];
    }

    /** Fails when the name is not registered. */
    method UpdateTriggerTime(name: string, namespace: string) returns (ok: bool)
      requires Safe(Current())
      modifies this
      ensures ok == (Key(name, namespace) in old(registered))
      ensures Current() == Next(old(Current()), MonitorModel.UpdateTriggerTime(Key(name, namespace)))
      ensures Safe(Current())
    {
      var key := Key(name, namespace);
      UpdateTriggerTimeSafe(Current(), key);
      if key !in registered {
        return false;
      }
      StopTimer(registered[key]);
      ArmTimer(registered[key]);
      return true;
    }

    /** Fails when the name is not registered. */
    method UpdateCachedSpec(name: string, namespace: string, hasSpec: bool) returns (ok: bool)
      requires Safe(Current())
      modifies this
      ensures ok == (Key(name, namespace) in old(registered))
      ensures Current() == Next(old(Current()), MonitorModel.UpdateCachedSpec(Key(name, namespace), hasSpec))
      ensures Safe(Current())
    {
      var key := Key(name, namespace);
      SafeStep(Current(), MonitorModel.UpdateCachedSpec(key, hasSpec));
      if key !in registered {
        return false;
      }
      events := events[registered[key] := events[registered[key]].(hasSpec := hasSpec)];
      return true;
    }

    /** Fails when the name is not registered. */
    method Unregister(name: string, namespace: string) returns (ok: bool)
      requires Safe(Current())
      modifies this
      ensures ok == (Key(name, namespace) in old(registered))
      ensures Current() == Next(old(Current()), MonitorModel.Unregister(Key(name, namespace)))
      ensures Safe(Current())
    {
      var key := Key(name, namespace);
      SafeStep(Current(), MonitorModel.Unregister(key));
      if key !in registered {
        return false;
      }
      Discard(key);
      return true;
    }

    /** The callback of an armed timer: done, or send, or skip when the channel is full. */
    method OnTimer(t: nat, choosesDone: bool)
      requires t in timers && timers[t].event < |events|
      modifies this
      ensures Current() == Next(old(Current()), Fire(t, choosesDone))
      ensures Safe(old(Current())) ==> Safe(Current())
    {
      if Safe(Current()) {
        SafeStep(Current(), Fire(t, choosesDone));
      }
      var timer := timers[t];
      timers := Without(timers, t);
      if timer.cancelled && choosesDone {
        return;
      }
      var event := events[timer.event];
      if !event.open {
        panicked := true;
      } else if event.buffer.None? {
        events := events[timer.event := event.(buffer := Some(event.hasSpec))];
      }
    }

    /** A received trigger starts a collection, unless its spec is nil. */
    method OnTrigger(e: nat)
      requires Safe(Current()) && e < |events| && events[e].loop.Waiting? && events[e].buffer.Some?
      modifies this
      ensures Current() == Next(old(Current()), Receive(e))
      ensures Safe(Current())
    {
      ReceiveSafe(Current(), e);
      hide Safe;
      var event := events[e].(buffer := None);
      if !events[e].buffer.value {
        event := event.(stalled := event.timer !in timers);
      } else {
        event := event.(loop := Collecting, stalled := false,
          lateCollections := event.lateCollections + if event.open then 0 else 1);
      }
      events := events[e := event];
    }

    /** A closed and drained channel ends the loop. */
    method OnChannelClosed(e: nat)
      requires Safe(Current()) && e < |events| && events[e].loop.Waiting? && events[e].buffer.None? && !events[e].open
      modifies this
      ensures Current() == Next(old(Current()), SeeClosed(e))
      ensures Safe(Current())
    {
      LoopSafe(Current(), e, Exited);
      hide Safe;
      events := events[e := events[e].(loop := Exited)];
    }

    /** The end of a collection: the loop re-arms whatever its name is registered to now. */
    method OnCollected(e: nat, name: string, namespace: string)
      requires Safe(Current()) && e < |events|
      requires events[e].loop.Collecting? && events[e].key == Key(name, namespace)
      modifies this
      ensures Current() == Next(old(Current()), FinishCollection(e))
      ensures Safe(Current())
    {
      SafeStep(Current(), FinishCollection(e));
      var _ := UpdateTriggerTime(name, namespace);
      events := events[e := events[e].(loop := Waiting)];
    }

    /** The context case of monitoringLoop's select. */
    method OnContextDone(e: nat)
      requires Safe(Current()) && e < |events|
      requires events[e].loop.Waiting? && events[e].monitorDone
      modifies this
      ensures Current() == Next(old(Current()), SeeDone(e))
      ensures Safe(Current())
    {
      SafeStep(Current(), SeeDone(e));
      events := events[e := events[e].(loop := Exited)];
    }
  }

  function Key(name: string, namespace: string): string { namespace + "/" + name }

  /** No two autoscalers share a key, as no namespace contains a slash. */
  lemma KeysDistinct(name1: string, namespace1: string, name2: string, namespace2: string)
    requires '/' !in namespace1 && '/' !in namespace2 && Key(name1, namespace1) == Key(name2, namespace2)
    ensures name1 == name2 && namespace1 == namespace2
  {
    var k, n1, n2 := Key(name1, namespace1), |namespace1|, |namespace2|;
    assert k[n1] == '/' && k[n2] == '/';
    assert forall i :: 0 <= i < n1 ==> k[i] == namespace1[i] != '/';
    assert forall i :: 0 <= i < n2 ==> k[i] == namespace2[i] != '/';
    assert k[..n1] == namespace1 && k[n1 + 1..] == name1;
  }

  /** Stop part way: the events in done are retired and their names removed. */
  ghost predicate Part(c: State, done: set<nat>, s: State) {
    && Safe(s.(started := true))
    && (forall k :: k in s.registered ==> k in c.registered && c.registered[k] == s.registered[k])
    && done == c.registered.Values - s.registered.Values
    && s == RetireAll(c, done).(started := false, parentLive := false, registered := s.registered)
  }

  lemma PartStart(s: State)
    requires Safe(s) && s.started
    ensures Part(CancelAll(s), {}, CancelAll(s).(started := false, parentLive := false))
  {
    var c := CancelAll(s);
    CancelAllSafe(s, false);
    assert RetireAll(c, {}).timers == c.timers;
    assert RetireAll(c, {}).events == c.events;
  }

  lemma PartValues(c: State, done: set<nat>, s: State, key: string)
    requires Part(c, done, s) && key in s.registered
    ensures var e := s.registered[key];
            && ValidId(s, e) && s.events[e].open && s.events[e].key == key && e !in done
            && done + {e} == c.registered.Values - Without(s.registered, key).Values
  {
    var e := s.registered[key];
    var u := s.(started := true);
    assert EventSafe(u, e);
    var rest := Without(s.registered, key);
    forall k | k in rest
      ensures rest[k] != e
    {
      assert u.events[u.registered[k]].key == k;
    }
    assert c.registered[key] in c.registered.Values && s.registered[key] in s.registered.Values;
    forall v | v in s.registered.Values && v != e
      ensures v in rest.Values
    {
      var k :| k in s.registered && s.registered[k] == v;
      assert rest[k] == v;
    }
  }

  /** Retiring one more event of a set is retiring the larger set. */
  lemma RetireOneMore(c: State, done: set<nat>, e: nat)
    requires ValidId(c, e) && e !in done && c.events[e].open
    ensures Retire(RetireAll(c, done), e) == RetireAll(c, done + {e})
  {
  }

  lemma PartStep(c: State, done: set<nat>, s: State, key: string)
    requires Part(c, done, s) && key in s.registered
    ensures var e := s.registered[key];
            ValidId(s, e) && Part(c, done + {e}, Retire(s, e).(registered := Without(s.registered, key)))
  {
    var e := s.registered[key];
    PartValues(c, done, s, key);
    RetireSafe(s.(started := true), e);
    RetireOneMore(c, done, e);
  }

  lemma PartEnd(s0: State, done: set<nat>, s: State)
    requires Part(CancelAll(s0), done, s) && s.registered == map[]
    ensures s == StopStep(s0)
  {
    assert done == CancelAll(s0).registered.Values;
  }
}
