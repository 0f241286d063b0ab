/**
 applyScalingAction run by any number of overlapping evaluators. Each reads the autoscaler (possibly
 stale), checks the grace period, stamps LastApplyTime and writes the status with the version it read;
 the API server rejects a write whose version is not the current one. Times are nanoseconds; the
 stored LastApplyTime keeps whole seconds only.
 */
module GracePeriod {
  import opened Wrappers

  const SECOND := 1000000000

  /** What a metav1.Time keeps of an instant. */
  function Stored(instant: nat): (time: nat)
    ensures time <= instant < time + SECOND
  {
    (instant / SECOND) * SECOND
  }

  /** A copy of the autoscaler: its resource version and LastApplyTime. */
  datatype Copy = Copy(version: nat, lastApply: Option<nat>)

  datatype Phase =
    | Started
    | Fetched(copy: Copy)
    | Cleared(copy: Copy, grace: nat)
    | Stamped(copy: Copy, grace: nat, stamp: nat)
    | Committed(copy: Copy)
    | Patched(copy: Copy)
    | Ended

  datatype Entry =
    | Commit(evaluator: nat, time: nat, grace: nat)
    | Patch(evaluator: nat)

  datatype State = State(
    now: nat,
    /** LastApplyTime under every version so far; the last one is current */
    history: seq<Option<nat>>,
    evaluators: map<nat, Phase>,
    log: seq<Entry>)
  {
    function Version(): nat
      requires history != []
    {
      |history| - 1
    }
  }

  /** The steps of evaluators, the clock and every other writer of the same object; Decline decides on no action. */
  datatype Step =
    | Tick(elapsed: nat)
    | Start(evaluator: nat)
    | Fetch(evaluator: nat, version: nat)
    | Decline(evaluator: nat)
    | Check(evaluator: nat, graceSeconds: nat)
    | Stamp(evaluator: nat)
    | WriteStatus(evaluator: nat)
    | PatchWorkload(evaluator: nat, succeeds: bool)
    | WriteTemplateStatus(evaluator: nat)
    | OtherWrite(version: nat)

  /** checkGracePeriod: true when the evaluator must wait. */
  predicate MustWait(copy: Copy, grace: nat, now: nat) {
    copy.lastApply.Some? && now - copy.lastApply.value < grace
  }

  /** The server's version check on a write of copy. */
  predicate Accepted(s: State, copy: Copy)
    requires s.history != []
  {
    copy.version == s.Version()
  }

  function Become(s: State, e: nat, phase: Phase): State { s.(evaluators := s.evaluators[e := phase]) }

  /** The accepted status write: a new version carrying the stamped time. */
  function CommitBy(s: State, e: nat): State
    requires e in s.evaluators && s.evaluators[e].Stamped?
  {
    var time := Stored(s.evaluators[e].stamp);
    State(s.now, s.history + [Some(time)], s.evaluators[e := Committed(Copy(|s.history|, Some(time)))],
          s.log + [Commit(e, time, s.evaluators[e].grace)])
  }

  function PatchBy(s: State, e: nat): State
    requires e in s.evaluators && s.evaluators[e].Committed?
  {
    State(s.now, s.history, s.evaluators[e := Patched(s.evaluators[e].copy)], s.log + [Patch(e)])
  }

  /** One step; a step that is not enabled changes nothing. */
  function Next(s: State, step: Step): State
    requires s.history != []
  {
    match step
    case Tick(elapsed) => s.(now := s.now + elapsed)
    case Start(e) => if e in s.evaluators then s else Become(s, e, Started)
    case Fetch(e, v) =>
      if e in s.evaluators && s.evaluators[e].Started? && v < |s.history|
      then Become(s, e, Fetched(Copy(v, s.history[v]))) else s
    case Decline(e) => if e in s.evaluators && s.evaluators[e].Fetched? then Become(s, e, Ended) else s
    case Check(e, seconds) =>
      if e in s.evaluators && s.evaluators[e].Fetched? then
        var grace := seconds * SECOND;
        if MustWait(s.evaluators[e].copy, grace, s.now) then Become(s, e, Ended)
        else Become(s, e, Cleared(s.evaluators[e].copy, grace))
      else s
    case Stamp(e) =>
      if e in s.evaluators && s.evaluators[e].Cleared?
      then Become(s, e, Stamped(s.evaluators[e].copy, s.evaluators[e].grace, s.now)) else s
    case WriteStatus(e) =>
      if e in s.evaluators && s.evaluators[e].Stamped? then
        if Accepted(s, s.evaluators[e].copy) then CommitBy(s, e) else Become(s, e, Ended)
      else s
    case PatchWorkload(e, succeeds) =>
      if e in s.evaluators && s.evaluators[e].Committed? then
        if succeeds then PatchBy(s, e) else Become(s, e, Ended)
      else s
    case WriteTemplateStatus(e) =>
      // before the patch (replica counts) or after it (the new template name); LastApplyTime as committed
      if e in s.evaluators && (s.evaluators[e].Committed? || s.evaluators[e].Patched?) then
        var copy := s.evaluators[e].copy;
        if !Accepted(s, copy) then s
        else
          var written := Copy(|s.history|, copy.lastApply);
          Become(s, e, if s.evaluators[e].Committed? then Committed(written) else Patched(written))
            .(history := s.history + [copy.lastApply])
      else s
    case OtherWrite(v) =>
      if v == s.Version() then s.(history := s.history + [s.history[v]]) else s
  }

  function Run(s: State, steps: seq<Step>): (t: State)
    requires s.history != []
    ensures t.history != []
    decreases |steps|
  {
    if steps == [] then s else Run(Next(s, steps[0]), steps[1..])
  }

  function Init(lastApply: Option<nat>): State { State(0, [lastApply], map[], []) }

  // ---------- the invariant ----------

  /** LastApplyTime as the log of commits leaves it. */
  function LastCommit(log: seq<Entry>, initial: Option<nat>): Option<nat> {
    if log == [] then initial
    else match log[|log| - 1]
      case Commit(_, time, _) => Some(time)
      case Patch(_) => LastCommit(log[..|log| - 1], initial)
  }

  /** Every commit keeps its own grace period from the one before it. */
  ghost predicate Spaced(log: seq<Entry>, initial: Option<nat>) {
    forall i :: 0 <= i < |log| && log[i].Commit? ==>
      match LastCommit(log[..i], initial)
      case None => true
      case Some(before) => log[i].time - before >= log[i].grace
  }

  /** Every patch has its own commit before it, and only one patch. */
  ghost predicate PatchesFollowCommits(log: seq<Entry>) {
    && (forall i :: 0 <= i < |log| && log[i].Patch? ==>
          exists j :: 0 <= j < i && log[j].Commit? && log[j].evaluator == log[i].evaluator)
    && (forall i, j :: 0 <= i < j < |log| && log[i].evaluator == log[j].evaluator ==> log[i].Commit? && log[j].Patch?)
  }

  predicate KnownCopy(s: State, copy: Copy) {
    copy.version < |s.history| && copy.lastApply == s.history[copy.version]
  }

  predicate GraceKept(copy: Copy, grace: nat, at: nat) {
    grace % SECOND == 0 && (copy.lastApply.Some? ==> at - copy.lastApply.value >= grace)
  }

  predicate WholeSeconds(lastApply: Option<nat>) { lastApply.Some? ==> lastApply.value % SECOND == 0 }

  ghost predicate PhaseInv(s: State, e: nat, phase: Phase) {
    match phase
    case Started => Absent(s.log, e)
    case Fetched(copy) => KnownCopy(s, copy) && Absent(s.log, e)
    case Cleared(copy, grace) => KnownCopy(s, copy) && GraceKept(copy, grace, s.now) && Absent(s.log, e)
    case Stamped(copy, grace, stamp) =>
      KnownCopy(s, copy) && GraceKept(copy, grace, stamp) && stamp <= s.now && Absent(s.log, e)
    case Committed(copy) =>
      && KnownCopy(s, copy) && Unpatched(s.log, e)
      && exists i :: 0 <= i < |s.log| && s.log[i].Commit? && s.log[i].evaluator == e
    case Patched(copy) => KnownCopy(s, copy)
    case Ended => true
  }

  predicate Absent(log: seq<Entry>, e: nat) { forall i :: 0 <= i < |log| ==> log[i].evaluator != e }

  predicate Unpatched(log: seq<Entry>, e: nat) {
    forall i :: 0 <= i < |log| ==> log[i] != Patch(e)
  }

  ghost predicate Inv(s: State, initial: Option<nat>) {
    && s.history != []
    && s.history[s.Version()] == LastCommit(s.log, initial)
    && (forall v :: 0 <= v < |s.history| ==> WholeSeconds(s.history[v]))
    && Spaced(s.log, initial)
    && PatchesFollowCommits(s.log)
    && (forall e :: e in s.evaluators ==> PhaseInv(s, e, s.evaluators[e]))
    && (forall i :: 0 <= i < |s.log| ==> s.log[i].evaluator in s.evaluators)
  }

  /** Truncating to whole seconds loses nothing of a grace period counted in seconds. */
  lemma StoredKeepsGrace(last: nat, stamp: nat, grace: nat)
    requires last % SECOND == 0 && grace % SECOND == 0 && stamp - last >= grace
    ensures Stored(stamp) - last >= grace && Stored(stamp) % SECOND == 0
  {
  }

  ghost predicate LogInv(log: seq<Entry>, initial: Option<nat>) {
    Spaced(log, initial) && PatchesFollowCommits(log)
  }

  lemma AppendCommit(log: seq<Entry>, initial: Option<nat>, e: nat, time: nat, grace: nat)
    requires LogInv(log, initial) && Absent(log, e)
    requires match LastCommit(log, initial) case None => true case Some(before) => time - before >= grace
    ensures LogInv(log + [Commit(e, time, grace)], initial)
    ensures LastCommit(log + [Commit(e, time, grace)], initial) == Some(time)
  {
    var longer := log + [Commit(e, time, grace)];
    assert longer[..|log|] == log;
    forall i | 0 <= i < |longer| && longer[i].Commit?
      ensures match LastCommit(longer[..i], initial)
              case None => true
              case Some(before) => longer[i].time - before >= longer[i].grace
    {
      if i < |log| {
        assert longer[..i] == log[..i];
      }
    }
    PatchesStillFollow(log, Commit(e, time, grace));
  }

  lemma AppendPatch(log: seq<Entry>, initial: Option<nat>, e: nat, k: nat)
    requires LogInv(log, initial) && Unpatched(log, e)
    requires k < |log| && log[k].Commit? && log[k].evaluator == e
    ensures LogInv(log + [Patch(e)], initial)
    ensures LastCommit(log + [Patch(e)], initial) == LastCommit(log, initial)
  {
    var longer := log + [Patch(e)];
    assert longer[..|log|] == log;
    forall i | 0 <= i < |longer| && longer[i].Commit?
      ensures match LastCommit(longer[..i], initial)
              case None => true
              case Some(before) => longer[i].time - before >= longer[i].grace
    {
      assert longer[..i] == log[..i];
    }
    assert longer[k] == log[k];
    PatchesStillFollow(log, Patch(e));
  }

  lemma PatchesStillFollow(log: seq<Entry>, entry: Entry)
    requires PatchesFollowCommits(log)
    requires entry.Commit? ==> Absent(log, entry.evaluator)
    requires entry.Patch? ==> Unpatched(log, entry.evaluator)
    requires entry.Patch? ==> exists k :: 0 <= k < |log| && log[k].Commit? && log[k].evaluator == entry.evaluator
    ensures PatchesFollowCommits(log + [entry])
  {
    var longer := log + [entry];
    forall i | 0 <= i < |longer| && longer[i].Patch?
      ensures exists j :: 0 <= j < i && longer[j].Commit? && longer[j].evaluator == longer[i].evaluator
    {
      var j :| 0 <= j < |log| && j < i && log[j].Commit? && log[j].evaluator == longer[i].evaluator;
      assert longer[j] == log[j];
    }
  }

  /** Appending history and an entry of another evaluator disturbs no phase. */
  lemma PhaseSurvives(s: State, t: State, e: nat, phase: Phase)
    requires PhaseInv(s, e, phase) && s.history <= t.history && s.now == t.now
    requires t.log == s.log || (exists entry: Entry :: entry.evaluator != e && t.log == s.log + [entry])
    ensures PhaseInv(t, e, phase)
  {
    assert forall i :: 0 <= i < |s.log| ==> t.log[i] == s.log[i];
  }

  /** An accepted write was computed from the last commit, so it keeps its grace period from it. */
  lemma AcceptedIsSpaced(s: State, e: nat, initial: Option<nat>)
    requires Inv(s, initial) && e in s.evaluators && s.evaluators[e].Stamped? && Accepted(s, s.evaluators[e].copy)
    ensures Absent(s.log, e) && WholeSeconds(Some(Stored(s.evaluators[e].stamp)))
    ensures match LastCommit(s.log, initial)
            case None => true
            case Some(before) => Stored(s.evaluators[e].stamp) - before >= s.evaluators[e].grace
  {
    hide Spaced, PatchesFollowCommits;
    var phase := s.evaluators[e];
    assert PhaseInv(s, e, phase);
    assert phase.copy.lastApply == LastCommit(s.log, initial);
    if phase.copy.lastApply.Some? {
      StoredKeepsGrace(phase.copy.lastApply.value, phase.stamp, phase.grace);
    }
  }

  lemma CommitKeepsInv(s: State, e: nat, initial: Option<nat>)
    requires Inv(s, initial) && e in s.evaluators && s.evaluators[e].Stamped? && Accepted(s, s.evaluators[e].copy)
    ensures Inv(CommitBy(s, e), initial)
  {
    hide Stored, Spaced, PatchesFollowCommits, LastCommit, GraceKept;
    var t, phase := CommitBy(s, e), s.evaluators[e];
    var entry := Commit(e, Stored(phase.stamp), phase.grace);
    AcceptedIsSpaced(s, e, initial);
    AppendCommit(s.log, initial, e, entry.time, phase.grace);
    assert t.log[|s.log|] == entry;
    EntryKeepsInv(s, t, entry, initial);
  }

  /** A new entry of e, with e's new phase in order, keeps everything else in order. */
  lemma EntryKeepsInv(s: State, t: State, entry: Entry, initial: Option<nat>)
    requires Inv(s, initial) && s.now == t.now && s.history <= t.history
    requires t.log == s.log + [entry] && LogInv(t.log, initial)
    requires t.history[|t.history| - 1] == LastCommit(t.log, initial)
    requires forall v :: |s.history| <= v < |t.history| ==> WholeSeconds(t.history[v])
    requires entry.evaluator in t.evaluators && PhaseInv(t, entry.evaluator, t.evaluators[entry.evaluator])
    requires forall e :: e != entry.evaluator ==> (e in s.evaluators <==> e in t.evaluators)
    requires forall e :: e != entry.evaluator && e in t.evaluators ==> t.evaluators[e] == s.evaluators[e]
    ensures Inv(t, initial)
  {
    hide Spaced, PatchesFollowCommits, LastCommit;
    forall e | e in t.evaluators
      ensures PhaseInv(t, e, t.evaluators[e])
    {
      if e != entry.evaluator {
        PhaseSurvives(s, t, e, s.evaluators[e]);
      }
    }
    hide PhaseInv;
    forall v | 0 <= v < |t.history|
      ensures WholeSeconds(t.history[v])
    {
      if v < |s.history| {
        assert t.history[v] == s.history[v];
      }
    }
  }

  lemma PatchKeepsInv(s: State, e: nat, initial: Option<nat>)
    requires Inv(s, initial) && e in s.evaluators && s.evaluators[e].Committed?
    ensures Inv(PatchBy(s, e), initial)
  {
    hide Spaced, PatchesFollowCommits, LastCommit, KnownCopy, GraceKept;
    var t, phase := PatchBy(s, e), s.evaluators[e];
    assert PhaseInv(s, e, phase);
    assert PhaseInv(t, e, Patched(phase.copy)) by {
      assert KnownCopy(t, phase.copy) by { SameHistorySameCopies(s, t, phase.copy); }
    }
    var k :| 0 <= k < |s.log| && s.log[k].Commit? && s.log[k].evaluator == e;
    AppendPatch(s.log, initial, e, k);
    hide PhaseInv;
    EntryKeepsInv(s, t, Patch(e), initial);
  }

  lemma SameHistorySameCopies(s: State, t: State, copy: Copy)
    requires s.history == t.history && KnownCopy(s, copy)
    ensures KnownCopy(t, copy)
  {
  }

  predicate Carried(before: Phase, after: Phase, copy: Copy) {
    || after == before
    || (before.Committed? && after == Committed(copy))
    || (before.Patched? && after == Patched(copy))
  }

  /** Status writes that carry the current LastApplyTime over to a new version. */
  lemma CarryKeepsInv(s: State, t: State, initial: Option<nat>)
    requires Inv(s, initial) && t.log == s.log && t.now == s.now
    requires t.history == s.history + [s.history[|s.history| - 1]]
    requires s.evaluators.Keys == t.evaluators.Keys
    requires forall e :: e in t.evaluators ==>
      Carried(s.evaluators[e], t.evaluators[e], Copy(|s.history|, t.history[|s.history|]))
    ensures Inv(t, initial)
  {
    hide Spaced, PatchesFollowCommits, LastCommit;
    forall e | e in t.evaluators
      ensures PhaseInv(t, e, t.evaluators[e])
    {
      assert PhaseInv(s, e, s.evaluators[e]);
      PhaseSurvives(s, t, e, s.evaluators[e]);
    }
  }

  /** Steps of one evaluator, or of the clock, that write nothing shared. */
  lemma LocalKeepsInv(s: State, t: State, initial: Option<nat>)
    requires Inv(s, initial) && t.log == s.log && t.history == s.history && s.now <= t.now
    requires forall e :: e in s.evaluators ==> e in t.evaluators
    requires forall e :: e in t.evaluators ==> PhaseInv(t, e, t.evaluators[e])
    ensures Inv(t, initial)
  {
  }

  lemma LocalStepKeepsInv(s: State, step: Step, initial: Option<nat>)
    requires Inv(s, initial)
    requires step.Tick? || step.Start? || step.Fetch? || step.Decline? || step.Check? || step.Stamp?
    ensures Inv(Next(s, step), initial)
  {
    hide Spaced, PatchesFollowCommits, LastCommit;
    var t := Next(s, step);
    if t != s {
      if step.Start? && exists i :: 0 <= i < |s.log| && s.log[i].evaluator == step.evaluator {
        assert false;
      }
      LocalKeepsInv(s, t, initial);
    }
  }

  lemma StepKeepsInv(s: State, step: Step, initial: Option<nat>)
    requires Inv(s, initial)
    ensures Inv(Next(s, step), initial)
  {
    hide Spaced, PatchesFollowCommits, LastCommit, GraceKept;
    var t := Next(s, step);
    if t == s {
      return;
    }
    match step {
      case WriteStatus(e) =>
        if Accepted(s, s.evaluators[e].copy) {
          CommitKeepsInv(s, e, initial);
        } else {
          LocalKeepsInv(s, t, initial);
        }
      case PatchWorkload(e, succeeds) =>
        if succeeds {
          PatchKeepsInv(s, e, initial);
        } else {
          LocalKeepsInv(s, t, initial);
        }
      case WriteTemplateStatus(e) =>
        assert PhaseInv(s, e, s.evaluators[e]);
        CarryKeepsInv(s, t, initial);
      case OtherWrite(v) =>
        CarryKeepsInv(s, t, initial);
      case _ =>
        LocalStepKeepsInv(s, step, initial);
    }
  }

  lemma {:induction false} RunKeepsInv(s: State, steps: seq<Step>, initial: Option<nat>)
    requires Inv(s, initial)
    ensures Inv(Run(s, steps), initial)
    decreases |steps|
  {
    if steps != [] {
      StepKeepsInv(s, steps[0], initial);
      RunKeepsInv(Next(s, steps[0]), steps[1..], initial);
    }
  }

  // ---------- the results, over every run ----------

  /** In every interleaving, any two committed LastApplyTimes are the later action's grace period apart. */
  lemma CommitsKeepGracePeriods(lastApply: Option<nat>, steps: seq<Step>, i: nat, j: nat)
    requires WholeSeconds(lastApply)
    requires var log := Run(Init(lastApply), steps).log;
             i < j < |log| && log[i].Commit? && log[j].Commit?
    ensures var log := Run(Init(lastApply), steps).log;
            log[j].time - log[i].time >= log[j].grace
  {
    RunKeepsInv(Init(lastApply), steps, lastApply);
    CommitsAreOrdered(Run(Init(lastApply), steps).log, lastApply, i, j);
  }

  /** The commit in force before position j is no earlier than any commit before it. */
  lemma {:induction false} CommitsAreOrdered(log: seq<Entry>, initial: Option<nat>, i: nat, j: nat)
    requires Spaced(log, initial) && i < j <= |log| && log[i].Commit?
    ensures var last := LastCommit(log[..j], initial); last.Some? && last.value >= log[i].time
    ensures j < |log| && log[j].Commit? ==> log[j].time - log[i].time >= log[j].grace
  {
    assert log[..j][..j - 1] == log[..j - 1];
    if i < j - 1 {
      CommitsAreOrdered(log, initial, i, j - 1);
    }
  }

  /** The first commit also respects the LastApplyTime the run started from. */
  lemma FirstCommitKeepsGracePeriod(lastApply: nat, steps: seq<Step>, j: nat)
    requires lastApply % SECOND == 0
    requires var log := Run(Init(Some(lastApply)), steps).log; j < |log| && log[j].Commit?
    ensures var log := Run(Init(Some(lastApply)), steps).log; log[j].time - lastApply >= log[j].grace
  {
    RunKeepsInv(Init(Some(lastApply)), steps, Some(lastApply));
    InitialIsOldest(Run(Init(Some(lastApply)), steps).log, lastApply, j);
  }

  lemma {:induction false} InitialIsOldest(log: seq<Entry>, initial: nat, j: nat)
    requires Spaced(log, Some(initial)) && j <= |log|
    ensures var last := LastCommit(log[..j], Some(initial)); last.Some? && last.value >= initial
  {
    if j > 0 {
      assert log[..j][..j - 1] == log[..j - 1];
      InitialIsOldest(log, initial, j - 1);
    }
  }

  /** Every workload patch is preceded by its own evaluator's accepted status write, and no evaluator patches twice. */
  lemma PatchesFollowTheirCommit(lastApply: Option<nat>, steps: seq<Step>)
    requires WholeSeconds(lastApply)
    ensures PatchesFollowCommits(Run(Init(lastApply), steps).log)
  {
    RunKeepsInv(Init(lastApply), steps, lastApply);
  }
}
