/**
 Runs of the affinity protocol: from every reachable state some way on lets all blocked
 callers return, and two runs show that the stopper can forget a task.
 */
module AffinityRuns {
  import opened Wrappers
  import opened Affinity

  // ---------------------------------------------------------------- every caller can return

  /** The events es can be taken from s, without a warning, and end in s'. */
  ghost predicate Leads(s: State, es: seq<Event>, s': State)
    decreases |es|
  {
    if es == [] then s == s'
    else Enabled(s, es[0]) && Next(s, es[0]).Done? && Leads(Next(s, es[0]).s, es[1..], s')
  }

  function Installed(s: State): nat {
    if s.task.pending.Some? then 1 else 0
  }

  /** The migrate_enable calls still to come. */
  function Regions(s: State): nat {
    if s.task.enabling then 0 else s.task.disabled
  }

  /** How far the stopper work is from its end; more if it is bound for a CPU the task has left. */
  function WorkStage(s: State): nat {
    if s.works == [] then 0
    else
      match s.works[0]
      case ToQueue(_, _, target) => if target.Some? && target.value != s.task.cpu then 9 else 5
      case OnStopper(_, cpu) => if cpu == s.task.cpu then 4 else 8
      case Flushed(_, cpu) => if cpu == s.task.cpu then 3 else 7
  }

  /** How far the task is from running its migrate_enable, or from making way for the stopper. */
  function RunStage(s: State): nat {
    if s.works == [] then
      match s.task.run case Blocked => 3 case Waking => 2 case Queued => 1 case Running => 0
    else if s.task.run.Running? then (if s.task.enabling then 2 else 1)
    else 0
  }

  function Busy(phases: map<Caller, Phase>): set<Caller> {
    set c | c in phases && !phases[c].Draining?
  }

  function Callers(s: State): nat {
    |s.phases.Keys| + |Busy(s.phases)|
  }

  predicate Closer(u: State, s: State) {
    || Installed(u) < Installed(s)
    || (&& Installed(u) == Installed(s)
        && (|| Regions(u) < Regions(s)
            || (&& Regions(u) == Regions(s)
                && (|| WorkStage(u) < WorkStage(s)
                    || (&& WorkStage(u) == WorkStage(s)
                        && (|| RunStage(u) < RunStage(s)
                            || (&& RunStage(u) == RunStage(s)
                                && (|| |u.signals| < |s.signals|
                                    || (|u.signals| == |s.signals| && Callers(u) < Callers(s))))))))))
  }

  /** Event e is possible, safe and brings the state closer to the return of all callers. */
  predicate Helps(s: State, e: Event) {
    Enabled(s, e) && Next(s, e).Done? && Inv(Next(s, e).s) && Closer(Next(s, e).s, s)
  }

  lemma BusyDrain(phases: map<Caller, Phase>, c: Caller)
    requires c in phases && !phases[c].Draining?
    ensures |Busy(phases[c := Draining])| < |Busy(phases)| && phases[c := Draining].Keys == phases.Keys
    ensures |(phases - {c}).Keys| < |phases.Keys| && |Busy(phases - {c})| <= |Busy(phases)|
  {
    assert Busy(phases[c := Draining]) == Busy(phases) - {c} == Busy(phases - {c});
    assert (phases - {c}).Keys == phases.Keys - {c};
  }

  lemma DrainingLeaves(phases: map<Caller, Phase>, c: Caller)
    requires c in phases && phases[c].Draining?
    ensures |(phases - {c}).Keys| < |phases.Keys| && Busy(phases - {c}) == Busy(phases)
  {
    assert (phases - {c}).Keys == phases.Keys - {c};
  }

  lemma InvParts(s: State)
    requires Inv(s)
    ensures ReqsOk(s) && PhasesOk(s)
  {
  }

  /** A step that leaves the task and the works alone. */
  lemma QuietCloser(s: State, u: State)
    requires u.task == s.task && u.works == s.works
    requires |u.signals| < |s.signals| || (|u.signals| == |s.signals| && Callers(u) < Callers(s))
    ensures Closer(u, s)
  {
    hide Callers;
  }

  lemma WaiterTakes(s: State, c: Caller)
    requires Inv(s) && c in s.phases && s.phases[c].Waiting? && s.reqs[s.phases[c].req].done
    ensures Enabled(s, WaiterWakes(c)) && Next(s, WaiterWakes(c)) == WaiterStep(s, c)
  {
    hide TaskOk, DestOk, WorksOk, ReqsOk, SignalsOk, NoneLost, WaiterStep;
  }

  lemma WaiterHelps(s: State, c: Caller)
    requires Inv(s) && c in s.phases && s.phases[c].Waiting? && s.reqs[s.phases[c].req].done
    ensures Helps(s, WaiterWakes(c))
  {
    InvParts(s);
    WaiterTakes(s, c);
    hide Inv, Busy, ReqsOk, PhasesOk, Enabled, Next, Closer;
    StepSafe(s, WaiterWakes(c));
    WaiterReqs(s, c);
    BusyDrain(s.phases, c);
    QuietCloser(s, WaiterStep(s, c).s);
  }

  lemma OwnerTakes(s: State, c: Caller)
    requires c in s.phases && s.phases[c].Draining? && c in s.reqs && s.reqs[c].refs == 0
    ensures Enabled(s, OwnerReturns(c)) && Next(s, OwnerReturns(c)) == OwnerStep(s, c)
  {
    hide OwnerStep;
  }

  lemma OwnerHelps(s: State, c: Caller)
    requires Inv(s) && c in s.phases && s.phases[c].Draining? && c in s.reqs && s.reqs[c].refs == 0
    ensures Helps(s, OwnerReturns(c))
  {
    InvParts(s);
    DrainingLeaves(s.phases, c);
    OwnerTakes(s, c);
    hide Inv, Busy, ReqsOk, PhasesOk, Enabled, Next, Closer;
    StepSafe(s, OwnerReturns(c));
    OwnerReqs(s, c);
    QuietCloser(s, OwnerStep(s, c).s);
  }

  lemma SignalHelps(s: State)
    requires Inv(s) && s.signals != []
    ensures Helps(s, Signal(0))
  {
    assert s.signals[0] in s.reqs;
    hide Inv, Closer;
    StepSafe(s, Signal(0));
    QuietCloser(s, Next(s, Signal(0)).s);
  }

  /** If nobody can be served or sent home right away, a request is installed. */
  lemma InstalledIfStuck(s: State)
    requires Inv(s) && s.phases != map[] && s.signals == []
    requires forall c | c in s.phases && s.phases[c].Waiting? :: !s.reqs[s.phases[c].req].done
    requires forall c | c in s.phases && s.phases[c].Draining? :: s.reqs[c].refs != 0
    ensures s.task.pending.Some?
  {
    var c :| c in s.phases;
    var r := if s.phases[c].Draining? then c else s.phases[c].req;
    assert r in s.reqs && ReqOk(s, r);
    if s.phases[c].Draining? {
      var d :| d in Referrers(s.phases, c);
      assert s.phases[d].Waiting? || s.phases[d].Kicking?;
    }
    hide SignalsOk, NoneLost, DestOk, TaskOk;
  }

  /** With a request installed and no work on its way, the pinned task is brought to its migrate_enable. */
  lemma TaskHelps(s: State) returns (e: Event)
    requires Inv(s) && s.task.pending.Some? && s.works == []
    ensures Helps(s, e)
  {
    var t := s.task;
    assert ReqOk(s, t.pending.value);
    assert t.ptr.PinnedTo? && t.disabled > 0 && !t.enabling && t.pending.value in s.reqs && t.cpu in s.online;
    var dest :| dest in t.mask * s.online;
    assert t.mask <= s.possible;
    match t.run {
      case Blocked => e := WakeUp(t.cpu);
      case Waking => e := Activate;
      case Queued => e := SwitchIn;
      case Running => e := MigrateEnable(dest);
    }
    StepSafe(s, e);
    hide Inv;
  }

  /** A work on its way has its request, which is installed. */
  lemma WorkFacts(s: State)
    requires Inv(s) && s.works != []
    ensures |s.works| == 1 && s.task.pending == Some(s.works[0].req) && s.works[0].req in s.reqs
    ensures s.task.enabling ==> s.task.disabled == 1 && s.task.run.Running?
  {
  }

  lemma QueueHelps(s: State)
    requires Inv(s) && s.works != [] && s.works[0].ToQueue?
    ensures Helps(s, QueueWork(0))
  {
    WorkFacts(s);
    hide Inv;
    StepSafe(s, QueueWork(0));
  }

  /** The task leaves the CPU whose stopper has the work. */
  lemma MakeWayHelps(s: State)
    requires Inv(s) && s.works != [] && !s.works[0].ToQueue? && s.task.run.Running?
    ensures Helps(s, if s.task.enabling then EnableFinish else SwitchOut(Preempt))
  {
    WorkFacts(s);
    hide Inv;
    StepSafe(s, if s.task.enabling then EnableFinish else SwitchOut(Preempt));
  }

  lemma FlushHelps(s: State)
    requires Inv(s) && s.works != [] && s.works[0].OnStopper? && !(s.task.run.Running? && s.task.cpu == s.works[0].cpu)
    ensures Helps(s, StopperFlush(0))
  {
    WorkFacts(s);
    hide Inv;
    StepSafe(s, StopperFlush(0));
  }

  lemma StopHelps(s: State)
    requires Inv(s) && s.works != [] && s.works[0].Flushed? && !(s.task.run.Running? && s.task.cpu == s.works[0].cpu)
    ensures Helps(s, StopperRun(0))
  {
    WorkFacts(s);
    hide Inv, StopperSection;
    StepSafe(s, StopperRun(0));
    StopperCases(s, 0);
  }

  /** A work on its way is carried on, the task making way for the stopper. */
  lemma WorkHelps(s: State) returns (e: Event)
    requires Inv(s) && s.works != []
    ensures Helps(s, e)
  {
    hide Helps, Inv;
    var t, w := s.task, s.works[0];
    if w.ToQueue? {
      QueueHelps(s);
      e := QueueWork(0);
    } else if t.run.Running? && t.cpu == w.cpu {
      MakeWayHelps(s);
      e := if t.enabling then EnableFinish else SwitchOut(Preempt);
    } else if w.OnStopper? {
      FlushHelps(s);
      e := StopperFlush(0);
    } else {
      StopHelps(s);
      e := StopperRun(0);
    }
  }

  lemma SomethingHelps(s: State) returns (e: Event)
    requires Inv(s) && s.phases != map[]
    ensures Helps(s, e)
  {
    hide Helps, TaskOk, DestOk, WorksOk, ReqsOk, SignalsOk, NoneLost;
    if c :| c in s.phases && s.phases[c].Waiting? && s.reqs[s.phases[c].req].done {
      WaiterHelps(s, c);
      e := WaiterWakes(c);
    } else if c :| c in s.phases && s.phases[c].Draining? && s.reqs[c].refs == 0 {
      OwnerHelps(s, c);
      e := OwnerReturns(c);
    } else if s.signals != [] {
      SignalHelps(s);
      e := Signal(0);
    } else {
      InstalledIfStuck(s);
      if s.works == [] { e := TaskHelps(s); } else { e := WorkHelps(s); }
    }
  }

  lemma {:induction false} Returns(s: State) returns (es: seq<Event>, s': State)
    requires Inv(s)
    ensures Leads(s, es, s') && Inv(s') && s'.phases == map[]
    decreases Installed(s), Regions(s), WorkStage(s), RunStage(s), |s.signals|, Callers(s)
  {
    hide Inv, Enabled, Next, Installed, Regions, WorkStage, RunStage, Callers;
    if s.phases == map[] {
      es, s' := [], s;
    } else {
      var e := SomethingHelps(s);
      es, s' := Returns(Next(s, e).s);
      assert ([e] + es)[1..] == es;
      es := [e] + es;
    }
  }

  /**
   No caller is ever stuck for good: every reachable state can be continued, without any
   warning, to one in which all callers have returned.
   */
  lemma EveryoneCanReturn(ss: seq<State>, es: seq<Event>, i: nat) returns (more: seq<Event>, s': State)
    requires Run(ss, es) && i < |ss|
    ensures Leads(ss[i], more, s') && s'.phases == map[] && s'.reqs == map[] && s'.task.pending.None?
  {
    RunKeepsInv(ss, es, i);
    more, s' := Returns(ss[i]);
    assert s'.reqs.Keys <= s'.phases.Keys;
    hide Leads, Run;
  }

  // ---------------------------------------------------------------- a task pinned elsewhere

  /** Task and works of the i-th state of the run below; requests 10 and 11 name their callers. */
  function ForgottenState(i: nat): State
    requires i <= 11
  {
    var at0 := Task(0, {1, 2}, OwnMask, 0, false, Running, Some(10));
    var at1 := Task(1, {1, 2}, PinnedTo(1), 1, false, Queued, Some(10));
    var one := map[10 := Req(1, true, false, 1)];
    var two := map[10 := Req(2, true, false, 2)];
    var waits := map[10 := Waiting(10)];
    var both := map[10 := Waiting(10), 11 := Waiting(10)];
    var cpus := {0, 1, 2};
    match i
    case 0 => State(cpus, cpus, false, Task(0, {0, 1, 2}, OwnMask, 0, false, Running, None), map[], map[], [], [])
    case 1 => State(cpus, cpus, false, at0, one, map[10 := Kicking(10)], [ToQueue(10, ByCaller(10), Some(0))], [])
    case 2 => State(cpus, cpus, false, at0, one, waits, [OnStopper(10, 0)], [])
    case 3 => State(cpus, cpus, false, at0.(run := Queued), one, waits, [OnStopper(10, 0)], [])
    case 4 => State(cpus, cpus, false, at0.(run := Queued, cpu := 1), one, waits, [OnStopper(10, 0)], [])
    case 5 => State(cpus, cpus, false, at0.(cpu := 1), one, waits, [OnStopper(10, 0)], [])
    case 6 => State(cpus, cpus, false, at0.(cpu := 1, disabled := 1), one, waits, [OnStopper(10, 0)], [])
    case 7 => State(cpus, cpus, false, at1, one, waits, [OnStopper(10, 0)], [])
    case 8 => State(cpus, cpus, false, at1.(mask := {2}), two, both, [OnStopper(10, 0)], [])
    case 9 => State(cpus, cpus, false, at1.(mask := {2}), two, both, [Flushed(10, 0)], [])
    case 10 => State(cpus, cpus, false, at1.(mask := {2}, pending := None), map[10 := Req(2, false, false, 2)], both,
        [], [10])
    case 11 => State(cpus, cpus, false, at1.(mask := {2}, pending := None, run := Running),
        map[10 := Req(2, false, false, 2)], both, [], [10])
  }

  function ForgottenEvent(i: nat): Event
    requires i < 11
  {
    [SetAffinity(10, {1, 2}, 1, false, true), QueueWork(0), SwitchOut(Preempt), Balance(1), SwitchIn, MigrateDisable,
     SwitchOut(Preempt), SetAffinity(11, {2}, 2, false, true), StopperFlush(0), StopperRun(0), SwitchIn][i]
  }

  lemma ForgottenInstall()
    ensures Next(ForgottenState(0), ForgottenEvent(0)) == Done(ForgottenState(1))
  {
    var s := ForgottenState(0);
    var s1 := InstallOrJoin(s.(task := s.task.(mask := {1, 2})), 10, 1);
    assert {1, 2} * s.online == {1, 2} && s.task.mask != {1, 2} by { assert 0 in s.task.mask; }
    assert s1.reqs == map[10 := Req(1, false, false, 1)];
    assert PuntToStopper(s1, 10, Some(10)) == ForgottenState(1);
  }

  lemma ForgottenJoin()
    ensures Next(ForgottenState(7), ForgottenEvent(7)) == Done(ForgottenState(8))
  {
    var s := ForgottenState(7);
    var s1 := InstallOrJoin(s.(task := s.task.(mask := {2})), 11, 2);
    assert {2} * s.online == {2} && s.task.mask != {2} by { assert 1 in s.task.mask; }
    assert s1.reqs == map[10 := Req(2, true, false, 2)];
    assert MoveIfAllowed(s1, 10, 11, 2) == ForgottenState(8);
  }

  lemma ForgottenStop()
    ensures Enabled(ForgottenState(9), ForgottenEvent(9))
    ensures Next(ForgottenState(9), ForgottenEvent(9)) == Done(ForgottenState(10))
  {
    var s := ForgottenState(9);
    var out := SetStopPending(DropWork(s, 0), 10, false);
    assert out.works == [] && out.reqs == map[10 := Req(2, false, false, 2)];
    assert StopperSection(s, 0) == Done(Uninstall(out, 10));
  }

  lemma ForgottenCall(i: nat)
    requires i == 0 || i == 7 || i == 9
    ensures Enabled(ForgottenState(i), ForgottenEvent(i))
    ensures Next(ForgottenState(i), ForgottenEvent(i)) == Done(ForgottenState(i + 1))
  {
    if i == 0 { ForgottenInstall(); }
    else if i == 7 { ForgottenJoin(); }
    else if i == 9 { ForgottenStop(); }
  }

  lemma ForgottenEarly(i: nat)
    requires i < 6 && !(i == 0 || i == 7 || i == 9)
    ensures Enabled(ForgottenState(i), ForgottenEvent(i))
    ensures Next(ForgottenState(i), ForgottenEvent(i)) == Done(ForgottenState(i + 1))
  {
  }

  lemma ForgottenLate(i: nat)
    requires 6 <= i < 11 && !(i == 0 || i == 7 || i == 9)
    ensures Enabled(ForgottenState(i), ForgottenEvent(i))
    ensures Next(ForgottenState(i), ForgottenEvent(i)) == Done(ForgottenState(i + 1))
  {
  }

  lemma ForgottenStep(i: nat)
    requires i < 11
    ensures Enabled(ForgottenState(i), ForgottenEvent(i))
    ensures Next(ForgottenState(i), ForgottenEvent(i)) == Done(ForgottenState(i + 1))
  {
    hide Next, Enabled, ForgottenState, ForgottenEvent;
    if i == 0 || i == 7 || i == 9 { ForgottenCall(i); }
    else if i < 6 { ForgottenEarly(i); }
    else { ForgottenLate(i); }
  }

  lemma ForgottenFacts()
    ensures Init(ForgottenState(0))
    ensures Forgets(ForgottenState(9), ForgottenEvent(9)) && Decides(ForgottenState(9), ForgottenState(10))
    ensures var t := ForgottenState(10).task; t.cpu == 1 && t.run.Queued? && t.mask == {2}
    ensures Enabled(ForgottenState(11), MigrateEnable(2))
    ensures var o := Next(ForgottenState(11), MigrateEnable(2)); o.Warned? && o.line == WARN_NO_PENDING
  {
    assert {2} * {0, 1, 2} == {2};
    assert 0 in ForgottenState(0).task.mask * ForgottenState(0).online;
  }

  /**
   A run in which the stopper forgets a task pinned elsewhere. Caller 10 moves a running
   task off CPU 0; the load balancer gets there first; the task disables migration on CPU 1
   and is preempted; caller 11 forbids CPU 1; the stopper of CPU 0 then completes both
   requests with the task still on CPU 1, and the task's migrate_enable trips the warning at 2719.
   */
  lemma ForgottenTaskRun() returns (ss: seq<State>, es: seq<Event>)
    ensures |es| == 11 && Run(ss, es)
    ensures Forgets(ss[9], es[9]) && Decides(ss[9], ss[10])
    ensures ss[10].task.cpu == 1 && ss[10].task.run.Queued? && ss[10].task.mask == {2}
    ensures Enabled(ss[11], MigrateEnable(2))
    ensures Next(ss[11], MigrateEnable(2)).Warned? && Next(ss[11], MigrateEnable(2)).line == WARN_NO_PENDING
  {
    hide Next, Enabled, ForgottenState, ForgottenEvent, Init, Forgets, Decides;
    ss := seq(12, i requires 0 <= i < 12 => ForgottenState(i));
    es := seq(11, i requires 0 <= i < 11 => ForgottenEvent(i));
    forall i | 0 <= i < 11
      ensures Enabled(ss[i], es[i])
      ensures !Next(ss[i], es[i]).UseAfterFree? && Next(ss[i], es[i]).s == ss[i + 1]
    {
      ForgottenStep(i);
    }
    ForgottenFacts();
  }

  // ---------------------------------------------------------------- a task woken meanwhile

  /** The i-th state of the run below; 10, 11 and 12 name callers. */
  function LateWakeState(i: nat): State
    requires i <= 13
  {
    var t := Task(0, {1, 2}, OwnMask, 0, false, Running, Some(10));
    var t' := Task(0, {1}, OwnMask, 0, false, Waking, None);
    var one := map[10 := Req(1, true, false, 1)];
    var left := map[10 := Req(2, false, false, 1)];
    var waits := map[10 := Waiting(10)];
    var both := map[10 := Waiting(10), 11 := Waiting(10)];
    var cpus := {0, 1, 2};
    match i
    case 0 => State(cpus, cpus, false, t.(mask := cpus, pending := None), map[], map[], [], [])
    case 1 => State(cpus, cpus, false, t, one, map[10 := Kicking(10)], [ToQueue(10, ByCaller(10), Some(0))], [])
    case 2 => State(cpus, cpus, false, t, one, waits, [OnStopper(10, 0)], [])
    case 3 => State(cpus, cpus, false, t.(run := Blocked), one, waits, [OnStopper(10, 0)], [])
    case 4 => State(cpus, cpus, false, t.(run := Blocked), one, waits, [Flushed(10, 0)], [])
    case 5 => State(cpus, cpus, false, t.(run := Blocked, mask := {0, 1}), one, waits, [Flushed(10, 0)], [])
    case 6 => State(cpus, cpus, false, t.(run := Waking, mask := {0, 1}), one, waits, [Flushed(10, 0)], [])
    case 7 => State(cpus, cpus, false, t'.(pending := Some(10)), map[10 := Req(2, true, false, 1)], both,
        [Flushed(10, 0)], [])
    case 8 => State(cpus, cpus, false, t', left, both, [], [10])
    case 9 => State(cpus, cpus, false, t'.(run := Queued), left, both, [], [10])
    case 10 => State(cpus, cpus, false, t'.(run := Running), left, both, [], [10])
    case 11 => State(cpus, cpus, false, t'.(run := Running, disabled := 1), left, both, [], [10])
    case 12 => State(cpus, cpus, false, t'.(run := Queued, disabled := 1, ptr := PinnedTo(0)), left, both, [], [10])
    case 13 => State(cpus, cpus, false, t'.(run := Running, disabled := 1, ptr := PinnedTo(0)), left, both, [], [10])
  }

  function LateWakeEvent(i: nat): Event
    requires i < 13
  {
    [SetAffinity(10, {1, 2}, 1, false, true), QueueWork(0), SwitchOut(Sleep), StopperFlush(0),
     SetAffinity(12, {0, 1}, 0, false, true), WakeUp(0), SetAffinity(11, {1}, 1, false, true), StopperRun(0),
     Activate, SwitchIn, MigrateDisable, SwitchOut(Preempt), SwitchIn][i]
  }

  lemma LateWakeInstall()
    ensures Next(LateWakeState(0), LateWakeEvent(0)) == Done(LateWakeState(1))
  {
    var s := LateWakeState(0);
    var s1 := InstallOrJoin(s.(task := s.task.(mask := {1, 2})), 10, 1);
    assert {1, 2} * s.online == {1, 2} && s.task.mask != {1, 2} by { assert 0 in s.task.mask; }
    assert s1.reqs == map[10 := Req(1, false, false, 1)];
    assert PuntToStopper(s1, 10, Some(10)) == LateWakeState(1);
  }

  lemma LateWakeAllows()
    ensures Next(LateWakeState(4), LateWakeEvent(4)) == Done(LateWakeState(5))
  {
    var s := LateWakeState(4);
    assert {0, 1} * s.online == {0, 1} && s.task.mask != {0, 1} by { assert 2 in s.task.mask; }
  }

  lemma LateWakeJoin()
    ensures Next(LateWakeState(6), LateWakeEvent(6)) == Done(LateWakeState(7))
  {
    var s := LateWakeState(6);
    var s1 := InstallOrJoin(s.(task := s.task.(mask := {1})), 11, 1);
    assert {1} * s.online == {1} && s.task.mask != {1} by { assert 0 in s.task.mask; }
    assert s1.reqs == map[10 := Req(2, true, false, 1)];
    assert PuntToStopper(s1, 10, Some(11)) == LateWakeState(7);
  }

  lemma LateWakeStop()
    ensures Enabled(LateWakeState(7), LateWakeEvent(7))
    ensures Next(LateWakeState(7), LateWakeEvent(7)) == Done(LateWakeState(8))
  {
    var s := LateWakeState(7);
    var out := SetStopPending(DropWork(s, 0), 10, false);
    assert out.works == [] && out.reqs == map[10 := Req(2, false, false, 1)];
    assert StopperSection(s, 0) == Done(Uninstall(out, 10));
  }

  lemma LateWakeCall(i: nat)
    requires i == 0 || i == 4 || i == 6 || i == 7
    ensures Enabled(LateWakeState(i), LateWakeEvent(i))
    ensures Next(LateWakeState(i), LateWakeEvent(i)) == Done(LateWakeState(i + 1))
  {
    if i == 0 { LateWakeInstall(); }
    else if i == 4 { LateWakeAllows(); }
    else if i == 6 { LateWakeJoin(); }
    else if i == 7 { LateWakeStop(); }
  }

  lemma LateWakeEarly(i: nat)
    requires i < 7 && !(i == 0 || i == 4 || i == 6 || i == 7)
    ensures Enabled(LateWakeState(i), LateWakeEvent(i))
    ensures Next(LateWakeState(i), LateWakeEvent(i)) == Done(LateWakeState(i + 1))
  {
  }

  lemma LateWakeLate(i: nat)
    requires 7 <= i < 13 && !(i == 0 || i == 4 || i == 6 || i == 7)
    ensures Enabled(LateWakeState(i), LateWakeEvent(i))
    ensures Next(LateWakeState(i), LateWakeEvent(i)) == Done(LateWakeState(i + 1))
  {
  }

  lemma LateWakeStep(i: nat)
    requires i < 13
    ensures Enabled(LateWakeState(i), LateWakeEvent(i))
    ensures Next(LateWakeState(i), LateWakeEvent(i)) == Done(LateWakeState(i + 1))
  {
    hide Next, Enabled, LateWakeState, LateWakeEvent;
    if i == 0 || i == 4 || i == 6 || i == 7 { LateWakeCall(i); }
    else if i < 7 { LateWakeEarly(i); }
    else { LateWakeLate(i); }
  }

  lemma LateWakeFacts()
    ensures Init(LateWakeState(0))
    ensures Forgets(LateWakeState(7), LateWakeEvent(7)) && !PinnedElsewhere(LateWakeState(7), LateWakeEvent(7))
    ensures Enabled(LateWakeState(13), MigrateEnable(1))
    ensures var o := Next(LateWakeState(13), MigrateEnable(1)); o.Warned? && o.line == WARN_NO_PENDING
  {
    assert {1} * {0, 1, 2} == {1};
    assert 0 in LateWakeState(0).task.mask * LateWakeState(0).online;
  }

  /**
   A run in which the stopper forgets a task that is just being woken. Caller 10 forbids CPU
   0, the task goes to sleep and the stopper passes its flush; caller 12 allows CPU 0 again,
   the task is woken onto it, and caller 11 forbids it before the task is queued. The stopper
   completes the requests without moving the task, which runs on CPU 0 all the same.
   */
  lemma LateWakeRun() returns (ss: seq<State>, es: seq<Event>)
    ensures |es| == 13 && Run(ss, es)
    ensures Forgets(ss[7], es[7]) && !PinnedElsewhere(ss[7], es[7])
    ensures ss[10].task.cpu == 0 && ss[10].task.run.Running? && ss[10].task.mask == {1} && ss[10].task.pending.None?
    ensures Enabled(ss[13], MigrateEnable(1))
    ensures Next(ss[13], MigrateEnable(1)).Warned? && Next(ss[13], MigrateEnable(1)).line == WARN_NO_PENDING
  {
    var s10 := LateWakeState(10);
    assert s10.task == Task(0, {1}, OwnMask, 0, false, Running, None);
    hide Next, Enabled, LateWakeState, LateWakeEvent, Init, Forgets, PinnedElsewhere;
    ss := seq(14, i requires 0 <= i < 14 => LateWakeState(i));
    es := seq(13, i requires 0 <= i < 13 => LateWakeEvent(i));
    forall i | 0 <= i < 13
      ensures Enabled(ss[i], es[i])
      ensures !Next(ss[i], es[i]).UseAfterFree? && Next(ss[i], es[i]).s == ss[i + 1]
    {
      LateWakeStep(i);
    }
    LateWakeFacts();
  }
}
