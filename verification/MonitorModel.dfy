/**
 internal/monitor/service_monitor.go as atomic steps: the API calls (each under the mutex), timers
 firing, and the steps of the per-event loops. Registered events live in an arena so that stale
 loops and timers can still refer to events that left the map.
 */
module MonitorModel {
  import opened Wrappers

  datatype Loop = Waiting | Collecting | Exited

  /** A MonitoringEvent together with the loop goroutine started for it. */
  datatype Event = Event(
    key: string,
    /** triggerChan has not been closed */
    open: bool,
    /** the capacity-1 channel: a buffered trigger and whether its CachedSpec is non-nil */
    buffer: Option<bool>,
    hasSpec: bool,
    timer: nat,
    /** the loop's context is cancelled */
    monitorDone: bool,
    loop: Loop,
    /** collections started after the channel was closed */
    lateCollections: nat,
    /** history: the last trigger received had a nil CachedSpec, found no armed timer, and nothing was armed since */
    stalled: bool)

  /** An armed time.AfterFunc. */
  datatype Timer = Timer(event: nat, cancelled: bool)

  datatype State = State(
    /** sm.ctx is non-nil */
    started: bool,
    /** the context Start was given is not cancelled */
    parentLive: bool,
    registered: map<string, nat>,
    events: seq<Event>,
    timers: map<nat, Timer>,
    nextTimer: nat,
    /** a closed channel was closed again or sent on, or a nil context derived from */
    panicked: bool)

  datatype Step =
    | Start
    | Stop
    | Register(key: string, hasSpec: bool)
    | UpdateTriggerTime(key: string)
    | UpdateCachedSpec(key: string, hasSpec: bool)
    | Unregister(key: string)
    | Fire(timer: nat, choosesDone: bool)
    | Receive(event: nat)
    | SeeClosed(event: nat)
    | SeeDone(event: nat)
    | FinishCollection(event: nat)
    | CancelParent

  const INIT := State(false, false, map[], [], map[], 0, false)

  predicate ValidId(s: State, e: nat) { e < |s.events| }

  /** timer.Stop() and close(triggerChan). */
  function Retire(s: State, e: nat): State
    requires ValidId(s, e)
  {
    s.(timers := Without(s.timers, s.events[e].timer),
       events := s.events[e := s.events[e].(open := false)],
       panicked := s.panicked || !s.events[e].open)
  }

  /** timer.Stop() and time.AfterFunc under a context derived from sm.ctx. */
  function Arm(s: State, e: nat): State
    requires ValidId(s, e)
  {
    s.(timers := Without(s.timers, s.events[e].timer)[s.nextTimer := Timer(e, !s.parentLive)],
       events := s.events[e := s.events[e].(timer := s.nextTimer, stalled := false)],
       nextTimer := s.nextTimer + 1,
       panicked := s.panicked || !s.started)
  }

  function CancelAll(s: State): State {
    s.(events := seq(|s.events|, i requires 0 <= i < |s.events| => s.events[i].(monitorDone := true)),
       timers := map t | t in s.timers :: s.timers[t].(cancelled := true))
  }

  function NewEvent(s: State, key: string, hasSpec: bool): State {
    s.(registered := s.registered[key := |s.events|],
       events := s.events + [Event(key, true, None, hasSpec, s.nextTimer, !s.parentLive, Waiting, 0, false)],
       timers := s.timers[s.nextTimer := Timer(|s.events|, !s.parentLive)],
       nextTimer := s.nextTimer + 1,
       panicked := s.panicked || !s.started)
  }

  /** RegisterWithCollector: an existing event of the name is retired and its loop told to stop. */
  function RegisterStep(s: State, key: string, hasSpec: bool): State {
    if key in s.registered && ValidId(s, s.registered[key]) then
      var e := s.registered[key];
      var r := Retire(s, e);
      NewEvent(r.(events := r.events[e := r.events[e].(monitorDone := true)]), key, hasSpec)
    else NewEvent(s, key, hasSpec)
  }

  /** The timers of some events stopped and their channels closed. */
  function RetireAll(s: State, ids: set<nat>): State {
    s.(timers := map t | t in s.timers && t !in TimersOf(s, ids) :: s.timers[t],
       events := seq(|s.events|, i requires 0 <= i < |s.events| =>
                       if i in ids then s.events[i].(open := false) else s.events[i]),
       panicked := s.panicked || exists e :: e in ids && ValidId(s, e) && !s.events[e].open)
  }

  function TimersOf(s: State, ids: set<nat>): set<nat> {
    set e | e in ids && ValidId(s, e) :: s.events[e].timer
  }

  /** Every derived context is cancelled and every registered event retired. */
  function StopStep(s: State): State {
    RetireAll(CancelAll(s), s.registered.Values).(started := false, parentLive := false, registered := map[])
  }

  /** UpdateTriggerTime by name: whoever calls it, the event now registered under the name is re-armed. */
  function UpdateTriggerTimeStep(s: State, key: string): State {
    if key in s.registered && ValidId(s, s.registered[key]) then Arm(s, s.registered[key]) else s
  }

  function SetLoop(s: State, e: nat, loop: Loop): State
    requires ValidId(s, e)
  {
    s.(events := s.events[e := s.events[e].(loop := loop)])
  }

  function FireStep(s: State, t: nat, choosesDone: bool): State
    requires t in s.timers && ValidId(s, s.timers[t].event)
  {
    var e := s.timers[t].event;
    var fired := s.(timers := Without(s.timers, t));
    if s.timers[t].cancelled && choosesDone then fired
    else if !s.events[e].open then fired.(panicked := true)
    else if s.events[e].buffer.Some? then fired
    else fired.(events := s.events[e := s.events[e].(buffer := Some(s.events[e].hasSpec))])
  }

  function ReceiveStep(s: State, e: nat): State
    requires ValidId(s, e) && s.events[e].buffer.Some?
  {
    var ev := s.events[e];
    if !ev.buffer.value then s.(events := s.events[e := ev.(buffer := None, stalled := ev.timer !in s.timers)])
    else s.(events := s.events[e := ev.(buffer := None, loop := Collecting, stalled := false,
                                         lateCollections := ev.lateCollections + (if ev.open then 0 else 1))])
  }

  /** One step; a step that is not enabled changes nothing. */
  function Next(s: State, step: Step): State {
    match step
    case Start => if s.started then s else s.(started := true, parentLive := true)
    case Stop => if s.started then StopStep(s) else s
    case Register(key, hasSpec) => if s.started then RegisterStep(s, key, hasSpec) else s
    case UpdateTriggerTime(key) => UpdateTriggerTimeStep(s, key)
    case UpdateCachedSpec(key, hasSpec) =>
      if key in s.registered && ValidId(s, s.registered[key])
      then s.(events := s.events[s.registered[key] := s.events[s.registered[key]].(hasSpec := hasSpec)]) else s
    case Unregister(key) =>
      if key in s.registered && ValidId(s, s.registered[key])
      then Retire(s, s.registered[key]).(registered := Without(s.registered, key)) else s
    case Fire(t, choosesDone) =>
      if t in s.timers && ValidId(s, s.timers[t].event) then FireStep(s, t, choosesDone) else s
    case Receive(e) =>
      if ValidId(s, e) && s.events[e].loop.Waiting? && s.events[e].buffer.Some? then ReceiveStep(s, e) else s
    case SeeClosed(e) =>
      if ValidId(s, e) && s.events[e].loop.Waiting? && !s.events[e].open && s.events[e].buffer.None?
      then SetLoop(s, e, Exited) else s
    case SeeDone(e) =>
      if ValidId(s, e) && s.events[e].loop.Waiting? && s.events[e].monitorDone then SetLoop(s, e, Exited) else s
    case FinishCollection(e) =>
      if ValidId(s, e) && s.events[e].loop.Collecting?
      then SetLoop(UpdateTriggerTimeStep(s, s.events[e].key), e, Waiting) else s
    case CancelParent => if s.started then CancelAll(s).(parentLive := false) else s
  }

  function Run(s: State, steps: seq<Step>): State
    decreases |steps|
  {
    if steps == [] then s else Run(Next(s, steps[0]), steps[1..])
  }

  // ---------- safety ----------

  predicate InMap(s: State, e: nat)
    requires ValidId(s, e)
  {
    s.events[e].key in s.registered && s.registered[s.events[e].key] == e
  }

  /** Open exactly while registered; at most one late collection, counting the one still buffered. */
  predicate EventSafe(s: State, e: nat)
    requires ValidId(s, e)
  {
    var ev := s.events[e];
    && (ev.open <==> InMap(s, e))
    && ev.timer < s.nextTimer
    && ev.lateCollections + (if !ev.open && ev.buffer.Some? then 1 else 0) <= 1
    && (ev.open ==> ev.lateCollections == 0)
  }

  /** An armed timer is the one its event points to, and that event is open. */
  predicate TimerSafe(s: State, t: nat)
    requires t in s.timers
  {
    var e := s.timers[t].event;
    ValidId(s, e) && s.events[e].timer == t && s.events[e].open
  }

  ghost predicate Safe(s: State) {
    && !s.panicked
    && (!s.started ==> s.registered == map[])
    && (forall key :: key in s.registered ==> ValidId(s, s.registered[key]) && s.events[s.registered[key]].key == key)
    && (forall e :: 0 <= e < |s.events| ==> EventSafe(s, e))
    && (forall t :: t in s.timers ==> TimerSafe(s, t))
  }

  lemma RetireSafe(s: State, e: nat)
    requires Safe(s) && ValidId(s, e) && s.events[e].open
    ensures var t := Retire(s, e).(registered := Without(s.registered, s.events[e].key));
            Safe(t.(events := t.events[e := t.events[e].(monitorDone := true)])) && Safe(t)
  {
    var t := Retire(s, e).(registered := Without(s.registered, s.events[e].key));
    assert EventSafe(s, e);
    forall i | 0 <= i < |s.events|
      ensures EventSafe(t, i)
    {
      assert EventSafe(s, i);
    }
    forall x | x in t.timers
      ensures TimerSafe(t, x)
    {
      assert TimerSafe(s, x);
    }
    var u := t.(events := t.events[e := t.events[e].(monitorDone := true)]);
    forall i | 0 <= i < |s.events|
      ensures EventSafe(u, i)
    {
      assert EventSafe(t, i);
    }
    forall x | x in u.timers
      ensures TimerSafe(u, x)
    {
      assert TimerSafe(t, x);
    }
  }

  lemma NewEventSafe(s: State, key: string, hasSpec: bool)
    requires Safe(s) && s.started && key !in s.registered
    ensures Safe(NewEvent(s, key, hasSpec))
  {
    var t := NewEvent(s, key, hasSpec);
    forall i | 0 <= i < |t.events|
      ensures EventSafe(t, i)
    {
      if i < |s.events| {
        assert EventSafe(s, i);
        assert t.events[i] == s.events[i];
      }
    }
    forall x | x in t.timers
      ensures TimerSafe(t, x)
    {
      if x in s.timers {
        assert TimerSafe(s, x);
        assert EventSafe(s, s.timers[x].event);
      }
    }
  }

  lemma ArmSafe(s: State, e: nat)
    requires Safe(s) && s.started && ValidId(s, e) && s.events[e].open
    ensures Safe(Arm(s, e))
  {
    var t := Arm(s, e);
    forall i | 0 <= i < |t.events|
      ensures EventSafe(t, i)
    {
      assert EventSafe(s, i);
    }
    forall x | x in t.timers
      ensures TimerSafe(t, x)
    {
      if x != s.nextTimer {
        assert TimerSafe(s, x);
        assert EventSafe(s, s.timers[x].event);
      }
    }
  }

  /** Overwriting a map entry is removing it and adding the new one. */
  lemma RegisterAsReplace(s: State, key: string, hasSpec: bool)
    requires Safe(s) && key in s.registered
    ensures var e := s.registered[key];
            var t := Retire(s, e).(registered := Without(s.registered, key));
            RegisterStep(s, key, hasSpec)
              == NewEvent(t.(events := t.events[e := t.events[e].(monitorDone := true)]), key, hasSpec)
  {
    assert Without(s.registered, key)[key := |s.events|] == s.registered[key := |s.events|];
  }

  /** Changes to one event that touch neither its name, channel state, timer nor late count. */
  lemma EventChangeSafe(s: State, e: nat, ev: Event)
    requires Safe(s) && ValidId(s, e)
    requires ev.key == s.events[e].key && ev.open == s.events[e].open && ev.timer == s.events[e].timer
    requires ev.lateCollections + (if !ev.open && ev.buffer.Some? then 1 else 0) <= 1
    requires ev.open ==> ev.lateCollections == 0
    ensures Safe(s.(events := s.events[e := ev]))
  {
    var t := s.(events := s.events[e := ev]);
    forall i | 0 <= i < |t.events|
      ensures EventSafe(t, i)
    {
      assert EventSafe(s, i);
    }
    forall x | x in t.timers
      ensures TimerSafe(t, x)
    {
      assert TimerSafe(s, x);
    }
  }

  lemma FewerTimersSafe(s: State, t: nat)
    requires Safe(s)
    ensures Safe(s.(timers := Without(s.timers, t)))
  {
    var u := s.(timers := Without(s.timers, t));
    forall i | 0 <= i < |u.events|
      ensures EventSafe(u, i)
    {
      assert EventSafe(s, i);
    }
    forall x | x in u.timers
      ensures TimerSafe(u, x)
    {
      assert TimerSafe(s, x);
    }
  }

  lemma CancelAllSafe(s: State, live: bool)
    requires Safe(s)
    ensures Safe(CancelAll(s).(parentLive := live))
  {
    var u := CancelAll(s).(parentLive := live);
    forall i | 0 <= i < |u.events|
      ensures EventSafe(u, i)
    {
      assert EventSafe(s, i);
    }
    forall x | x in u.timers
      ensures TimerSafe(u, x)
    {
      assert TimerSafe(s, x);
    }
  }

  lemma StopSafe(s: State)
    requires Safe(s)
    ensures Safe(StopStep(s)) && StopStep(s).timers == map[]
  {
    var u := StopStep(s);
    forall i | 0 <= i < |u.events|
      ensures EventSafe(u, i)
    {
      assert EventSafe(s, i);
      if s.events[i].open {
        assert s.registered[s.events[i].key] in s.registered.Values;
      }
    }
    var c := CancelAll(s);
    forall x | x in s.timers
      ensures x in TimersOf(c, s.registered.Values)
    {
      assert TimerSafe(s, x);
      var e := s.timers[x].event;
      assert EventSafe(s, e);
      assert s.registered[s.events[e].key] in s.registered.Values;
      assert c.events[e].timer == x;
    }
    forall e | e in s.registered.Values
      ensures ValidId(c, e) && c.events[e].open
    {
      var key :| key in s.registered && s.registered[key] == e;
      assert EventSafe(s, e);
    }
  }

  lemma SafeStep(s: State, step: Step)
    requires Safe(s)
    ensures Safe(Next(s, step))
  {
    hide Safe, RegisterStep, StopStep, FireStep, ReceiveStep, UpdateTriggerTimeStep, CancelAll, Retire;
    match step {
      case Start => ContextSafe(s, true, true);
      case Stop => StopSafe(s);
      case Register(key, hasSpec) => if s.started { RegisterSafe(s, key, hasSpec); }
      case UpdateTriggerTime(key) => UpdateTriggerTimeSafe(s, key);
      case UpdateCachedSpec(key, hasSpec) => UpdateCachedSpecSafe(s, key, hasSpec);
      case Unregister(key) => UnregisterSafe(s, key);
      case Fire(t, choosesDone) => FireSafe(s, t, choosesDone);
      case Receive(e) => ReceiveSafe(s, e);
      case SeeClosed(e) => LoopSafe(s, e, Exited);
      case SeeDone(e) => LoopSafe(s, e, Exited);
      case FinishCollection(e) =>
        if ValidId(s, e) {
          UpdateTriggerTimeSafe(s, s.events[e].key);
          LoopSafe(UpdateTriggerTimeStep(s, s.events[e].key), e, Waiting);
        }
      case CancelParent => CancelAllSafe(s, false);
    }
  }

  lemma UpdateCachedSpecSafe(s: State, key: string, hasSpec: bool)
    requires Safe(s)
    ensures Safe(Next(s, UpdateCachedSpec(key, hasSpec)))
  {
    if key in s.registered {
      var e := s.registered[key];
      assert EventSafe(s, e);
      EventChangeSafe(s, e, s.events[e].(hasSpec := hasSpec));
    }
  }

  lemma UnregisterSafe(s: State, key: string)
    requires Safe(s)
    ensures Safe(Next(s, Unregister(key)))
  {
    if key in s.registered {
      assert EventSafe(s, s.registered[key]);
      RetireSafe(s, s.registered[key]);
    }
  }

  lemma ReceiveSafe(s: State, e: nat)
    requires Safe(s)
    ensures Safe(Next(s, Receive(e)))
  {
    if ValidId(s, e) && s.events[e].loop.Waiting? && s.events[e].buffer.Some? {
      assert EventSafe(s, e);
      var ev := ReceiveStep(s, e).events[e];
      assert ReceiveStep(s, e) == s.(events := s.events[e := ev]);
      hide Safe;
      EventChangeSafe(s, e, ev);
    }
  }

  lemma UpdateTriggerTimeSafe(s: State, key: string)
    requires Safe(s)
    ensures Safe(UpdateTriggerTimeStep(s, key)) && |UpdateTriggerTimeStep(s, key).events| == |s.events|
  {
    if key in s.registered {
      assert EventSafe(s, s.registered[key]);
      ArmSafe(s, s.registered[key]);
    }
  }

  lemma ContextSafe(s: State, started: bool, live: bool)
    requires Safe(s) && (!started ==> s.registered == map[])
    ensures Safe(s.(started := started, parentLive := live))
  {
    var t := s.(started := started, parentLive := live);
    forall i | 0 <= i < |t.events|
      ensures EventSafe(t, i)
    {
      assert EventSafe(s, i);
    }
    forall x | x in t.timers
      ensures TimerSafe(t, x)
    {
      assert TimerSafe(s, x);
    }
  }

  lemma RegisterSafe(s: State, key: string, hasSpec: bool)
    requires Safe(s) && s.started
    ensures Safe(RegisterStep(s, key, hasSpec))
  {
    if key in s.registered {
      var e := s.registered[key];
      assert EventSafe(s, e);
      RetireSafe(s, e);
      RegisterAsReplace(s, key, hasSpec);
      var t := Retire(s, e).(registered := Without(s.registered, key));
      NewEventSafe(t.(events := t.events[e := t.events[e].(monitorDone := true)]), key, hasSpec);
    } else {
      NewEventSafe(s, key, hasSpec);
    }
  }

  lemma LoopSafe(s: State, e: nat, loop: Loop)
    requires Safe(s)
    ensures ValidId(s, e) ==> Safe(SetLoop(s, e, loop))
  {
    if ValidId(s, e) {
      assert EventSafe(s, e);
      EventChangeSafe(s, e, s.events[e].(loop := loop));
    }
  }

  lemma FireSafe(s: State, t: nat, choosesDone: bool)
    requires Safe(s)
    ensures Safe(Next(s, Fire(t, choosesDone)))
  {
    if t in s.timers {
      assert TimerSafe(s, t);
      var e := s.timers[t].event;
      assert EventSafe(s, e);
      FewerTimersSafe(s, t);
      EventChangeSafe(s.(timers := Without(s.timers, t)), e, s.events[e].(buffer := Some(s.events[e].hasSpec)));
    }
  }

  /**
   Over every run: no channel is closed twice or sent on when closed, a nil context implies no
   events, a channel is open exactly while its event is in the map, an event has at most one armed
   timer, and at most one collection starts after an event's channel closed.
   */
  lemma {:induction false} RunSafe(s: State, steps: seq<Step>)
    requires Safe(s)
    ensures Safe(Run(s, steps))
    decreases |steps|
  {
    if steps != [] {
      SafeStep(s, steps[0]);
      RunSafe(Next(s, steps[0]), steps[1..]);
    }
  }

  // ---------- liveness as an invariant ----------

  /** Something will wake the event's loop, or it is awake. */
  predicate Alive(s: State, e: nat)
    requires ValidId(s, e)
  {
    s.events[e].timer in s.timers || s.events[e].buffer.Some? || s.events[e].loop.Collecting?
  }

  /** A registered event is asleep exactly when it is stalled. */
  predicate EventLive(s: State, e: nat)
    requires ValidId(s, e)
  {
    var ev := s.events[e];
    && !ev.monitorDone && !ev.loop.Exited?
    && (ev.timer in s.timers ==> s.timers[ev.timer] == Timer(e, false))
    && (Alive(s, e) <==> !ev.stalled)
  }

  ghost predicate Live(s: State) {
    s.started && s.parentLive ==>
      forall key :: key in s.registered && ValidId(s, s.registered[key]) ==> EventLive(s, s.registered[key])
  }

  lemma LiveRegister(s: State, key: string, hasSpec: bool)
    requires Safe(s) && Live(s) && s.started
    ensures Live(RegisterStep(s, key, hasSpec))
  {
    var t := RegisterStep(s, key, hasSpec);
    if s.parentLive {
      forall k | k in t.registered && ValidId(t, t.registered[k])
        ensures EventLive(t, t.registered[k])
      {
        if k != key {
          var e := s.registered[k];
          assert EventLive(s, e) && EventSafe(s, e);
          if key in s.registered {
            var r := s.registered[key];
            assert EventSafe(s, r) && EventLive(s, r);
          }
          assert t.events[e] == s.events[e];
        }
      }
    }
  }

  /** Re-arming by name wakes the event of that name and touches no other. */
  lemma LiveUpdateTriggerTime(s: State, key: string)
    requires Safe(s) && Live(s)
    ensures Live(UpdateTriggerTimeStep(s, key))
  {
    var t := UpdateTriggerTimeStep(s, key);
    if s.started && s.parentLive && key in s.registered {
      var r := s.registered[key];
      assert EventSafe(s, r) && EventLive(s, r);
      forall k | k in t.registered && ValidId(t, t.registered[k])
        ensures EventLive(t, t.registered[k])
      {
        var i := s.registered[k];
        assert EventLive(s, i) && EventSafe(s, i);
        if k != key {
          assert i != r && t.events[i] == s.events[i];
        }
      }
    }
  }

  /** A loop that finishes re-arms by its own name first, so if it is the registered one it is not stalled. */
  lemma LiveFinish(s: State, e: nat)
    requires Safe(s) && Live(s) && ValidId(s, e) && s.events[e].loop.Collecting?
    ensures Live(Next(s, FinishCollection(e)))
  {
    var key := s.events[e].key;
    var u := UpdateTriggerTimeStep(s, key);
    LiveUpdateTriggerTime(s, key);
    assert EventSafe(s, e);
    assert InMap(s, e) ==> Alive(u, e) && u.events[e].timer in u.timers;
    var ev := u.events[e].(loop := Waiting);
    if s.started && s.parentLive {
      forall k | k in u.registered && ValidId(u, u.registered[k])
        ensures EventLive(SetLoop(u, e, Waiting), u.registered[k])
      {
        var i := u.registered[k];
        assert EventLive(u, i) && EventSafe(s, i);
      }
    }
  }

  lemma LiveUnregister(s: State, key: string)
    requires Safe(s) && Live(s)
    ensures Live(Next(s, Unregister(key)))
  {
    var t := Next(s, Unregister(key));
    if s.started && s.parentLive && key in s.registered {
      var r := s.registered[key];
      forall k | k in t.registered && ValidId(t, t.registered[k])
        ensures EventLive(t, t.registered[k])
      {
        var i := s.registered[k];
        assert EventLive(s, i) && EventSafe(s, i) && EventSafe(s, r) && EventLive(s, r);
      }
    }
  }

  lemma LiveFire(s: State, t: nat, choosesDone: bool)
    requires Safe(s) && Live(s) && t in s.timers && ValidId(s, s.timers[t].event)
    ensures Live(FireStep(s, t, choosesDone))
  {
    var u := FireStep(s, t, choosesDone);
    assert TimerSafe(s, t);
    if s.started && s.parentLive {
      forall k | k in u.registered && ValidId(u, u.registered[k])
        ensures EventLive(u, u.registered[k])
      {
        var i := s.registered[k];
        assert EventLive(s, i) && EventSafe(s, i) && EventSafe(s, s.timers[t].event);
        if s.events[i].timer == t {
          assert s.timers[t] == Timer(i, false);
        }
      }
    }
  }

  /** A change to one event keeps everything alive if it keeps that event alive. */
  lemma LiveChange(s: State, e: nat, ev: Event)
    requires Live(s) && ValidId(s, e)
    requires s.started && s.parentLive && EventLive(s, e) ==> EventLive(s.(events := s.events[e := ev]), e)
    ensures Live(s.(events := s.events[e := ev]))
  {
  }

  lemma LiveReceive(s: State, e: nat)
    requires Safe(s) && Live(s)
    ensures Live(Next(s, Receive(e)))
  {
    if ValidId(s, e) && s.events[e].loop.Waiting? && s.events[e].buffer.Some? {
      var ev := ReceiveStep(s, e).events[e];
      assert ReceiveStep(s, e) == s.(events := s.events[e := ev]);
      LiveChange(s, e, ev);
    }
  }

  /** The loop of a live event has neither a closed channel nor a cancelled context to see. */
  lemma LiveExit(s: State, step: Step)
    requires Safe(s) && Live(s) && (step.SeeClosed? || step.SeeDone?)
    ensures Live(Next(s, step))
  {
    var e := step.event;
    if Next(s, step) != s {
      var ev := s.events[e].(loop := Exited);
      assert EventSafe(s, e);
      if s.started && s.parentLive {
        forall k | k in s.registered && ValidId(s, s.registered[k])
          ensures s.registered[k] != e
        {
          assert EventLive(s, s.registered[k]) && EventSafe(s, s.registered[k]);
        }
      }
    }
  }

  lemma LiveUpdateCachedSpec(s: State, key: string, hasSpec: bool)
    requires Live(s)
    ensures Live(Next(s, UpdateCachedSpec(key, hasSpec)))
  {
  }

  lemma LiveStep(s: State, step: Step)
    requires Safe(s) && Live(s)
    ensures Live(Next(s, step))
  {
    match step {
      case Register(key, hasSpec) => if s.started { LiveRegister(s, key, hasSpec); }
      case UpdateTriggerTime(key) => LiveUpdateTriggerTime(s, key);
      case Unregister(key) => LiveUnregister(s, key);
      case Fire(t, choosesDone) =>
        if t in s.timers && ValidId(s, s.timers[t].event) { LiveFire(s, t, choosesDone); }
      case FinishCollection(e) =>
        if ValidId(s, e) && s.events[e].loop.Collecting? { LiveFinish(s, e); }
      case Start =>
      case Stop =>
      case CancelParent =>
      case UpdateCachedSpec(key, hasSpec) => LiveUpdateCachedSpec(s, key, hasSpec);
      case Receive(e) => LiveReceive(s, e);
      case _ => LiveExit(s, step);
    }
  }

  /**
   In every run, while the parent context lives, a registered event has an armed timer, a buffered trigger
   or a busy loop unless it is stalled, even when the loop of an earlier registration re-arms its successor.
   */
  lemma {:induction false} RunLive(s: State, steps: seq<Step>)
    requires Safe(s) && Live(s)
    ensures Live(Run(s, steps))
    decreases |steps|
  {
    if steps != [] {
      SafeStep(s, steps[0]);
      LiveStep(s, steps[0]);
      RunLive(Next(s, steps[0]), steps[1..]);
    }
  }

  // ---------- what is registered, and with which spec ----------

  predicate StartedAfter(steps: seq<Step>)
    decreases |steps|
  {
    steps != [] &&
      match steps[|steps| - 1]
      case Start => true
      case Stop => false
      case _ => StartedAfter(steps[..|steps| - 1])
  }

  /** Whether the spec last given for a name is non-nil; None when the name is not held after these steps. */
  function Cached(steps: seq<Step>, key: string): Option<bool>
    decreases |steps|
  {
    if steps == [] then None
    else
      var before := steps[..|steps| - 1];
      match steps[|steps| - 1]
      case Stop => None
      case Register(k, hasSpec) => if k == key && StartedAfter(before) then Some(hasSpec) else Cached(before, key)
      case UpdateCachedSpec(k, hasSpec) =>
        if k == key && Cached(before, key).Some? then Some(hasSpec) else Cached(before, key)
      case Unregister(k) => if k == key then None else Cached(before, key)
      case _ => Cached(before, key)
  }

  lemma {:induction false} RunLast(s: State, steps: seq<Step>)
    requires steps != []
    ensures Run(s, steps) == Next(Run(s, steps[..|steps| - 1]), steps[|steps| - 1])
    decreases |steps|
  {
    hide Next;
    if |steps| > 1 {
      RunLast(Next(s, steps[0]), steps[1..]);
      assert steps[1..][..|steps| - 2] == steps[..|steps| - 1][1..];
    } else {
      assert steps[1..] == [] == steps[..0];
    }
  }

  /** The spec a registered name is held with. */
  function SpecOf(s: State, key: string): Option<bool> {
    if key in s.registered && ValidId(s, s.registered[key]) then Some(s.events[s.registered[key]].hasSpec) else None
  }

  lemma SpecStep(s: State, step: Step, key: string)
    requires Safe(s)
    ensures Next(s, step).started == (if step.Start? then true else if step.Stop? then false else s.started)
    ensures SpecOf(Next(s, step), key) ==
              match step
              case Stop => None
              case Register(k, hasSpec) => if k == key && s.started then Some(hasSpec) else SpecOf(s, key)
              case UpdateCachedSpec(k, hasSpec) =>
                if k == key && SpecOf(s, key).Some? then Some(hasSpec) else SpecOf(s, key)
              case Unregister(k) => if k == key then None else SpecOf(s, key)
              case _ => SpecOf(s, key)
  {
    hide RegisterStep, StopStep, UpdateTriggerTimeStep, FireStep, ReceiveStep, Safe;
    match step {
      case Stop => StopForgets(s);
      case Register(k, hasSpec) => if s.started { RegisterSpec(s, k, hasSpec, key); }
      case UpdateCachedSpec(k, hasSpec) => SpecsOfOthers(s, k, key);
      case Unregister(k) => SpecsOfOthers(s, k, key);
      case _ => SpecsKept(s, step);
    }
  }

  lemma StopForgets(s: State)
    requires Safe(s)
    ensures !s.started ==> s.registered == map[]
    ensures StopStep(s).registered == map[] && !StopStep(s).started
  {
  }

  lemma RegisterSpec(s: State, k: string, hasSpec: bool, key: string)
    requires Safe(s) && s.started
    ensures RegisterStep(s, k, hasSpec).started
    ensures SpecOf(RegisterStep(s, k, hasSpec), key) == if k == key then Some(hasSpec) else SpecOf(s, key)
  {
  }

  /** Two names never share an event. */
  lemma SpecsOfOthers(s: State, k: string, key: string)
    requires Safe(s)
    ensures k in s.registered ==> ValidId(s, s.registered[k])
    ensures k in s.registered && key in s.registered && k != key ==> s.registered[k] != s.registered[key]
  {
  }

  /** Registration and specs have not changed. */
  predicate SpecsAlike(s: State, t: State) {
    && t.started == s.started && t.registered == s.registered && |t.events| == |s.events|
    && forall e :: 0 <= e < |s.events| ==> t.events[e].hasSpec == s.events[e].hasSpec
  }

  lemma SpecsKept(s: State, step: Step)
    requires Safe(s) && !step.Stop? && !step.Register? && !step.UpdateCachedSpec? && !step.Unregister?
    ensures Next(s, step).started == (s.started || step.Start?)
    ensures SpecsAlike(s.(started := Next(s, step).started), Next(s, step))
  {
    hide Safe, UpdateTriggerTimeStep, FireStep, ReceiveStep, CancelAll, SetLoop;
    match step {
      case UpdateTriggerTime(key) => ArmKeepsSpecs(s, key);
      case FinishCollection(e) =>
        if ValidId(s, e) {
          ArmKeepsSpecs(s, s.events[e].key);
          LoopKeepsSpecs(UpdateTriggerTimeStep(s, s.events[e].key), e, Waiting);
        }
      case SeeClosed(e) => if ValidId(s, e) { LoopKeepsSpecs(s, e, Exited); }
      case SeeDone(e) => if ValidId(s, e) { LoopKeepsSpecs(s, e, Exited); }
      case Fire(t, choosesDone) =>
        if t in s.timers && ValidId(s, s.timers[t].event) { FireKeepsSpecs(s, t, choosesDone); }
      case Receive(e) => if ValidId(s, e) && s.events[e].buffer.Some? { ReceiveKeepsSpecs(s, e); }
      case CancelParent => CancelKeepsSpecs(s);
      case _ =>
    }
  }

  lemma LoopKeepsSpecs(s: State, e: nat, loop: Loop)
    requires ValidId(s, e)
    ensures SpecsAlike(s, SetLoop(s, e, loop))
  {
  }

  lemma FireKeepsSpecs(s: State, t: nat, choosesDone: bool)
    requires t in s.timers && ValidId(s, s.timers[t].event)
    ensures SpecsAlike(s, FireStep(s, t, choosesDone))
  {
  }

  lemma ReceiveKeepsSpecs(s: State, e: nat)
    requires ValidId(s, e) && s.events[e].buffer.Some?
    ensures SpecsAlike(s, ReceiveStep(s, e))
  {
  }

  lemma CancelKeepsSpecs(s: State)
    ensures SpecsAlike(s, CancelAll(s))
  {
  }

  lemma ArmKeepsSpecs(s: State, key: string)
    ensures SpecsAlike(s, UpdateTriggerTimeStep(s, key))
  {
  }

  /** Over every run a name is registered exactly while it is held, with the spec given for it last. */
  lemma {:induction false} RegistryOverRuns(steps: seq<Step>, key: string)
    ensures Run(INIT, steps).started == StartedAfter(steps)
    ensures SpecOf(Run(INIT, steps), key) == Cached(steps, key)
    ensures key in Run(INIT, steps).registered <==> Cached(steps, key).Some?
    decreases |steps|
  {
    RunSafe(INIT, steps);
    if steps != [] {
      var before := steps[..|steps| - 1];
      RegistryOverRuns(before, key);
      RunSafe(INIT, before);
      RunLast(INIT, steps);
      hide Next, SpecOf;
      SpecStep(Run(INIT, before), steps[|steps| - 1], key);
    }
  }

  // ---------- endings ----------

  /** Stopping leaves nothing registered or armed, every channel closed and every loop told to end. */
  lemma StopEndsAll(s: State)
    requires Safe(s) && s.started
    ensures var t := Next(s, Stop);
            && !t.started && t.registered == map[] && t.timers == map[] && |t.events| == |s.events|
            && forall e :: 0 <= e < |t.events| ==> !t.events[e].open && t.events[e].monitorDone
  {
    StopSafe(s);
    forall e | 0 <= e < |s.events|
      ensures !Next(s, Stop).events[e].open
    {
      assert EventSafe(StopStep(s), e);
    }
  }

  /** So does cancelling the parent context tell every loop to end, and every timer that it may stay silent. */
  lemma ParentEndsAll(s: State)
    requires Safe(s) && s.started
    ensures var t := Next(s, CancelParent);
            && !t.parentLive && t.registered == s.registered && t.timers.Keys == s.timers.Keys
            && (forall x :: x in t.timers ==> t.timers[x] == Timer(s.timers[x].event, true))
            && |t.events| == |s.events| && forall e :: 0 <= e < |t.events| ==> t.events[e].monitorDone
  {
  }

  /** An event replaced by a later registration of its name is closed and told to end. */
  lemma ReplacedEnds(s: State, key: string, hasSpec: bool)
    requires Safe(s) && s.started && key in s.registered
    ensures var t, e := Next(s, Register(key, hasSpec)), s.registered[key];
            && ValidId(t, e) && !t.events[e].open && t.events[e].monitorDone && t.registered[key] != e
            && (s.events[e].timer !in t.timers || t.timers[s.events[e].timer].event != e)
  {
    assert EventSafe(s, s.registered[key]);
  }

  /** A loop told to end ends at once when it waits. */
  lemma DoneEnds(s: State, e: nat)
    requires ValidId(s, e) && s.events[e].monitorDone && s.events[e].loop.Waiting?
    ensures Next(s, SeeDone(e)).events[e].loop.Exited?
  {
  }

  /** The loop of an event that left the map ends by its own next steps, told or not. */
  lemma LeftEnds(s: State, e: nat)
    requires Safe(s) && ValidId(s, e) && !InMap(s, e)
    ensures var t := Run(s, [FinishCollection(e), Receive(e), FinishCollection(e), SeeClosed(e)]);
            ValidId(t, e) && t.events[e].loop.Exited?
  {
    assert EventSafe(s, e);
    var s1 := Next(s, FinishCollection(e));
    FinishLeft(s, e);
    var s2 := Next(s1, Receive(e));
    ReceiveLeft(s1, e);
    var s3 := Next(s2, FinishCollection(e));
    FinishLeft(s2, e);
    var s4 := Next(s3, SeeClosed(e));
    hide Next, Safe, InMap;
    assert Run(s, [FinishCollection(e), Receive(e), FinishCollection(e), SeeClosed(e)])
        == Run(s1, [Receive(e), FinishCollection(e), SeeClosed(e)]);
    assert Run(s1, [Receive(e), FinishCollection(e), SeeClosed(e)]) == Run(s2, [FinishCollection(e), SeeClosed(e)]);
    assert Run(s2, [FinishCollection(e), SeeClosed(e)]) == Run(s3, [SeeClosed(e)]);
    assert Run(s3, [SeeClosed(e)]) == Run(s4, []) == s4;
  }

  lemma ReceiveLeft(s: State, e: nat)
    requires Safe(s) && ValidId(s, e) && !InMap(s, e) && !s.events[e].loop.Collecting? && !s.events[e].open
    ensures var t := Next(s, Receive(e));
            && Safe(t) && ValidId(t, e) && !InMap(t, e)
            && (t.events[e].loop.Exited? || t.events[e].buffer.None?)
  {
    SafeStep(s, Receive(e));
  }

  lemma FinishLeft(s: State, e: nat)
    requires Safe(s) && ValidId(s, e) && !InMap(s, e)
    ensures var t := Next(s, FinishCollection(e));
            && Safe(t) && ValidId(t, e) && !InMap(t, e) && !t.events[e].loop.Collecting?
            && (s.events[e].loop.Exited? ==> t.events[e].loop.Exited?)
            && t.events[e].buffer == s.events[e].buffer && !t.events[e].open && t.events[e].key == s.events[e].key
  {
    SafeStep(s, FinishCollection(e));
    assert EventSafe(s, e);
    if s.events[e].key in s.registered {
      assert EventSafe(s, s.registered[s.events[e].key]);
    }
  }

  /** A firing takes its timer away; unless it gives way to a cancelled context it leaves one trigger, with the spec. */
  lemma FireDelivers(s: State, t: nat, choosesDone: bool)
    requires Safe(s) && t in s.timers
    ensures var u, e := Next(s, Fire(t, choosesDone)), s.timers[t].event;
            && ValidId(s, e) && |u.events| == |s.events| && t !in u.timers
            && u.events[e].buffer == if s.events[e].buffer.Some? || (s.timers[t].cancelled && choosesDone)
                                     then s.events[e].buffer else Some(s.events[e].hasSpec)
  {
    assert TimerSafe(s, t);
  }

  /** Re-arming replaces the timer of the event now registered under the name. */
  lemma RearmReplaces(s: State, key: string)
    requires Safe(s) && key in s.registered
    ensures var t, e := Next(s, UpdateTriggerTime(key)), s.registered[key];
            && ValidId(s, e) && |t.events| == |s.events| && t.registered == s.registered
            && s.events[e].timer !in t.timers && t.events[e].timer in t.timers
            && t.timers[t.events[e].timer] == Timer(e, !s.parentLive) && t.events[e].timer !in s.timers
  {
    assert EventSafe(s, s.registered[key]);
    forall x | x in s.timers
      ensures x < s.nextTimer
    {
      assert TimerSafe(s, x);
      assert EventSafe(s, s.timers[x].event);
    }
  }

  // ---------- stalls ----------

  predicate SpecsNonNil(step: Step) {
    (step.Register? || step.UpdateCachedSpec?) ==> step.hasSpec
  }

  ghost predicate NoNilSpecs(s: State) {
    forall e :: 0 <= e < |s.events| ==> s.events[e].hasSpec && s.events[e].buffer != Some(false) && !s.events[e].stalled
  }

  lemma {:induction false} NonNilSpecsNeverStall(s: State, steps: seq<Step>)
    requires NoNilSpecs(s) && forall i :: 0 <= i < |steps| ==> SpecsNonNil(steps[i])
    ensures NoNilSpecs(Run(s, steps))
    decreases |steps|
  {
    if steps != [] {
      NonNilStep(s, steps[0]);
      NonNilSpecsNeverStall(Next(s, steps[0]), steps[1..]);
    }
  }

  lemma NonNilStop(s: State)
    requires NoNilSpecs(s)
    ensures NoNilSpecs(StopStep(s)) && NoNilSpecs(CancelAll(s))
  {
  }

  lemma NonNilRegister(s: State, key: string)
    requires NoNilSpecs(s)
    ensures NoNilSpecs(RegisterStep(s, key, true)) && NoNilSpecs(UpdateTriggerTimeStep(s, key))
    ensures |UpdateTriggerTimeStep(s, key).events| == |s.events|
  {
  }

  lemma NonNilChannel(s: State, step: Step)
    requires NoNilSpecs(s) && (step.Fire? || step.Receive?)
    ensures NoNilSpecs(Next(s, step))
  {
  }

  lemma NonNilStep(s: State, step: Step)
    requires SpecsNonNil(step) && NoNilSpecs(s)
    ensures NoNilSpecs(Next(s, step))
  {
    hide StopStep, CancelAll, RegisterStep, UpdateTriggerTimeStep, FireStep, ReceiveStep;
    match step {
      case Stop => NonNilStop(s);
      case CancelParent => NonNilStop(s);
      case Register(key, hasSpec) => NonNilRegister(s, key);
      case UpdateTriggerTime(key) => NonNilRegister(s, key);
      case FinishCollection(e) => if ValidId(s, e) { NonNilRegister(s, s.events[e].key); }
      case Fire(t, choosesDone) => NonNilChannel(s, step);
      case Receive(e) => NonNilChannel(s, step);
      case _ =>
    }
  }

  /** From the empty monitor, over every run. */
  lemma MonitorRuns(steps: seq<Step>)
    ensures var s := Run(INIT, steps);
            && !s.panicked
            && (!s.started ==> s.registered == map[])
            && (forall e :: 0 <= e < |s.events| ==>
                  (s.events[e].open <==> InMap(s, e)) && s.events[e].lateCollections <= 1)
            && (forall t, u :: t in s.timers && u in s.timers && s.timers[t].event == s.timers[u].event ==> t == u)
            && (forall t :: t in s.timers ==> ValidId(s, s.timers[t].event) && s.events[s.timers[t].event].open)
    ensures var s := Run(INIT, steps);
            s.started && s.parentLive ==>
              forall e :: 0 <= e < |s.events| && s.events[e].open ==>
                !s.events[e].loop.Exited? && (Alive(s, e) <==> !s.events[e].stalled)
    ensures (forall i :: 0 <= i < |steps| ==> SpecsNonNil(steps[i])) ==>
              var s := Run(INIT, steps); forall e :: 0 <= e < |s.events| ==> !s.events[e].stalled
  {
    RunSafe(INIT, steps);
    RunLive(INIT, steps);
    var s := Run(INIT, steps);
    forall e | 0 <= e < |s.events|
      ensures (s.events[e].open <==> InMap(s, e)) && s.events[e].lateCollections <= 1
      ensures s.started && s.parentLive && s.events[e].open ==> EventLive(s, e)
    {
      assert EventSafe(s, e);
    }
    forall t | t in s.timers
      ensures ValidId(s, s.timers[t].event)
      ensures s.events[s.timers[t].event].timer == t && s.events[s.timers[t].event].open
    {
      assert TimerSafe(s, t);
    }
    if forall i :: 0 <= i < |steps| ==> SpecsNonNil(steps[i]) {
      NonNilSpecsNeverStall(INIT, steps);
    }
  }

  /** Asleep with nothing left to wake it. */
  predicate Asleep(s: State, e: nat, name: string) {
    ValidId(s, e) && s.events[e].stalled && !Alive(s, e) && s.events[e].key == name
  }

  /** The step re-arms by name: a direct call, or the end of a collection of a loop of that name. */
  predicate Rearms(s: State, step: Step, key: string) {
    || step == UpdateTriggerTime(key)
    || (step.FinishCollection? && ValidId(s, step.event) && s.events[step.event].loop.Collecting?
        && s.events[step.event].key == key)
  }

  /** Retiring or cancelling events arms nothing. */
  lemma StopKeepsAsleep(s: State, e: nat, name: string, step: Step)
    requires Safe(s) && Asleep(s, e, name) && (step.Stop? || step.CancelParent? || step.Unregister?)
    ensures Asleep(Next(s, step), e, name)
  {
  }

  lemma RegisterKeepsAsleep(s: State, e: nat, name: string, key: string, hasSpec: bool)
    requires Safe(s) && Asleep(s, e, name)
    ensures Asleep(Next(s, Register(key, hasSpec)), e, name)
  {
    assert EventSafe(s, e);
  }

  lemma LoopsKeepAsleep(s: State, e: nat, name: string, step: Step)
    requires Safe(s) && Asleep(s, e, name)
    requires step.Start? || step.UpdateCachedSpec? || step.Receive? || step.SeeClosed? || step.SeeDone?
    ensures Asleep(Next(s, step), e, name)
  {
    hide Safe;
  }

  /** The only timer that could reach the event is its own, and it is not armed. */
  lemma FireKeepsAsleep(s: State, e: nat, name: string, t: nat, choosesDone: bool)
    requires Safe(s) && Asleep(s, e, name)
    ensures Asleep(Next(s, Fire(t, choosesDone)), e, name)
  {
    if t in s.timers {
      assert TimerSafe(s, t);
    }
    hide Safe;
  }

  lemma RearmWakes(s: State, e: nat, name: string, key: string)
    requires Safe(s) && Asleep(s, e, name)
    ensures |UpdateTriggerTimeStep(s, key).events| == |s.events|
    ensures Asleep(UpdateTriggerTimeStep(s, key), e, name) <==> !(InMap(s, e) && key == name)
  {
    assert EventSafe(s, e);
  }

  /** Whoever re-arms the name the event is registered under wakes it, and nothing else does. */
  lemma WakesIff(s: State, e: nat, name: string, step: Step)
    requires Safe(s) && Asleep(s, e, name)
    ensures ValidId(Next(s, step), e)
    ensures Asleep(Next(s, step), e, name) <==> !(InMap(s, e) && Rearms(s, step, name))
  {
    hide Safe, StopStep, RegisterStep, UpdateTriggerTimeStep, FireStep, ReceiveStep, CancelAll;
    match step {
      case Register(key, hasSpec) => RegisterKeepsAsleep(s, e, name, key, hasSpec);
      case UpdateTriggerTime(key) => RearmWakes(s, e, name, key);
      case FinishCollection(i) =>
        if ValidId(s, i) && s.events[i].loop.Collecting? {
          RearmWakes(s, e, name, s.events[i].key);
        }
      case Fire(t, choosesDone) => FireKeepsAsleep(s, e, name, t, choosesDone);
      case Stop => StopKeepsAsleep(s, e, name, step);
      case CancelParent => StopKeepsAsleep(s, e, name, step);
      case Unregister(key) => StopKeepsAsleep(s, e, name, step);
      case _ => LoopsKeepAsleep(s, e, name, step);
    }
  }

  ghost predicate NeverRearms(s: State, steps: seq<Step>, key: string)
    decreases |steps|
  {
    steps == [] || (!Rearms(s, steps[0], key) && NeverRearms(Next(s, steps[0]), steps[1..], key))
  }

  /** So a stalled event sleeps through every run in which its name is never re-armed. */
  lemma {:induction false} StallLasts(s: State, e: nat, name: string, steps: seq<Step>)
    requires Safe(s) && Asleep(s, e, name) && NeverRearms(s, steps, name)
    ensures Asleep(Run(s, steps), e, name)
    decreases |steps|
  {
    if steps != [] {
      SafeStep(s, steps[0]);
      WakesIff(s, e, name, steps[0]);
      StallLasts(Next(s, steps[0]), e, name, steps[1..]);
    }
  }

  /** One nil spec is enough: a run in which a registered event falls asleep, and sleeps on until it is re-armed. */
  lemma NilSpecStalls(steps: seq<Step>)
    ensures var s := Run(INIT, [Start, Register("ns/a", false), Fire(0, false), Receive(0)]);
            && s.started && s.parentLive && Asleep(s, 0, "ns/a") && InMap(s, 0)
            && (NeverRearms(s, steps, "ns/a") ==> Asleep(Run(s, steps), 0, "ns/a"))
  {
    var s1 := Next(INIT, Start);
    var s2 := Next(s1, Register("ns/a", false));
    assert s2.timers == map[0 := Timer(0, false)] && s2.events[0].buffer.None?;
    var s3 := Next(s2, Fire(0, false));
    assert s3.timers == map[] && s3.events[0].buffer == Some(false);
    var s4 := Next(s3, Receive(0));
    assert Run(INIT, [Start, Register("ns/a", false), Fire(0, false), Receive(0)])
        == Run(s1, [Register("ns/a", false), Fire(0, false), Receive(0)]);
    assert Run(s1, [Register("ns/a", false), Fire(0, false), Receive(0)]) == Run(s2, [Fire(0, false), Receive(0)]);
    assert Run(s2, [Fire(0, false), Receive(0)]) == Run(s3, [Receive(0)]);
    assert Run(s3, [Receive(0)]) == Run(s4, []) == s4;
    RunSafe(INIT, [Start, Register("ns/a", false), Fire(0, false), Receive(0)]);
    if NeverRearms(s4, steps, "ns/a") {
      StallLasts(s4, 0, "ns/a", steps);
    }
  }
}
