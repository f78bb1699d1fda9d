/**
 Changing the CPU affinity of one task while it may be running, sleeping, waking or
 inside a migrate-disable region (kernel/sched/core.c, affine_move_task,
 migration_cpu_stop, migrate_disable, migrate_enable).

 One target task, any number of callers and any number of CPUs. Each section under
 p->pi_lock and rq->lock is one step; so is each thing done outside the locks that
 another thread can observe (queueing a stopper work, signalling a completion, the
 waiters' reference drops). A request lives on its first caller's stack, so it is
 named by that caller and it exists only while that caller has not returned.
 */
module Affinity {
  import opened Wrappers

  type Cpu = nat
  type Caller = nat

  /** p->cpus_ptr: the task's own mask, or cpumask_of(cpu) while migration is disabled. */
  datatype MaskPtr = OwnMask | PinnedTo(cpu: Cpu)

  /** on_rq, on_cpu and __state together. Blocked and Waking have on_rq == 0. */
  datatype RunState = Blocked | Waking | Queued | Running

  datatype Task = Task(
    cpu: Cpu, mask: set<Cpu>, ptr: MaskPtr, disabled: nat, enabling: bool, run: RunState,
    pending: Option<Caller>)
  {
    /** *p->cpus_ptr */
    function EffectiveMask(): set<Cpu> {
      if ptr.OwnMask? then mask else {ptr.cpu}
    }

    predicate OffRunqueue() {
      run.Blocked? || run.Waking?
    }
  }

  /** struct set_affinity_pending */
  datatype Req = Req(refs: nat, stopPending: bool, done: bool, dest: Cpu)

  /** Where a caller is inside affine_move_task after its lock section. */
  datatype Phase =
    | Kicking(req: Caller)   // about to call stop_one_cpu_nowait
    | Waiting(req: Caller)   // in wait_for_completion
    | Draining               // owner, in wait_var_event
  {
    predicate RefersTo(r: Caller) {
      !Draining? && req == r
    }
  }

  datatype Kicker = ByCaller(c: Caller) | ByTask | ByStopper

  /** A stopper work on its way: the call not made yet, queued, or past its wake-list flush. */
  datatype Work =
    | ToQueue(req: Caller, kicker: Kicker, target: Option<Cpu>)
    | OnStopper(req: Caller, cpu: Cpu)
    | Flushed(req: Caller, cpu: Cpu)

  /** possible: task_cpu_possible_mask; noSetAffinity: PF_NO_SETAFFINITY. Both stay fixed. */
  datatype State = State(
    online: set<Cpu>, possible: set<Cpu>, noSetAffinity: bool, task: Task,
    reqs: map<Caller, Req>, phases: map<Caller, Phase>,
    works: seq<Work>, signals: seq<Caller>)

  /** What a step does: it may trip a WARN_ON_ONCE (named by its line) and go on, or touch a dead request. */
  datatype Outcome = Done(s: State) | Warned(line: nat, s: State) | UseAfterFree

  datatype SwitchKind = Preempt | Sleep | SleepRacingWake

  datatype Event =
    | SetAffinity(c: Caller, newMask: set<Cpu>, dest: Cpu, onSelf: bool, check: bool)   // check: SCA_CHECK
    | MigrateDisable
    | MigrateEnable(dest: Cpu)
    | EnableFinish
    | QueueWork(k: nat)
    | StopperFlush(k: nat)
    | StopperRun(k: nat)
    | Signal(k: nat)
    | WaiterWakes(c: Caller)
    | OwnerReturns(c: Caller)
    | SwitchIn
    | SwitchOut(kind: SwitchKind)
    | WakeUp(cpu: Cpu)
    | Activate
    | Balance(cpu: Cpu)

  // ---------------------------------------------------------------- the code's sections

  const WARN_STALE_PENDING := 2322
  const WARN_NO_STOP_PENDING := 2379
  const WARN_NO_PENDING := 2719
  const WARN_STOP_PENDING_AT_RETURN := 2776

  /** p->migration_pending = NULL and a complete_all() to be made after unlock. */
  function Uninstall(s: State, r: Caller): State {
    s.(task := s.task.(pending := None), signals := s.signals + [r])
  }

  function SetStopPending(s: State, r: Caller, b: bool): State
    requires r in s.reqs
  {
    s.(reqs := s.reqs[r := s.reqs[r].(stopPending := b)])
  }

  /** Install a request of caller c's own, or join the installed one. */
  function InstallOrJoin(s: State, c: Caller, dest: Cpu): State
    requires s.task.pending.Some? ==> s.task.pending.value in s.reqs
  {
    match s.task.pending
    case None =>
      s.(task := s.task.(pending := Some(c)), reqs := s.reqs[c := Req(1, false, false, dest)])
    case Some(r) =>
      var q := s.reqs[r];
      s.(reqs := s.reqs[r := q.(refs := q.refs + 1, dest := dest)])
  }

  /** The branch for a running or waking task: leave it to the stopper of its CPU. */
  function PuntToStopper(s: State, r: Caller, who: Option<Caller>): State
    requires r in s.reqs
  {
    if s.reqs[r].stopPending then
      if who.Some? then s.(phases := s.phases[who.value := Waiting(r)]) else s
    else
      var kicker := if who.Some? then ByCaller(who.value) else ByTask;
      var s1 := SetStopPending(s, r, true);
      s1.(works := s1.works + [ToQueue(r, kicker, Some(s.task.cpu))],
          phases := if who.Some? then s.phases[who.value := Kicking(r)] else s.phases)
  }

  /** The branch for a task that is neither running nor waking. */
  function MoveIfAllowed(s: State, r: Caller, c: Caller, dest: Cpu): State
    requires r in s.reqs
  {
    var s1 := s.(phases := s.phases[c := Waiting(r)]);
    if s.task.disabled > 0 then s1
    else
      var s2 := if s.task.run.Queued? then s1.(task := s1.task.(cpu := dest)) else s1;
      if s.reqs[r].stopPending then s2 else Uninstall(s2, r)
  }

  /** affine_move_task: who is the caller, or None for migrate_enable. */
  function AffineMove(s: State, who: Option<Caller>, dest: Cpu): Outcome {
    var t := s.task;
    if t.pending.Some? && t.pending.value !in s.reqs then UseAfterFree
    else if t.cpu in t.mask then
      if t.pending.Some? && !s.reqs[t.pending.value].stopPending
      then Done(Uninstall(s, t.pending.value)) else Done(s)
    else
      var s1 := if who.Some? then InstallOrJoin(s, who.value, dest) else s;
      if s1.task.pending.None? then Warned(WARN_NO_PENDING, s1)
      else
        var r := s1.task.pending.value;
        if t.run.Running? || t.run.Waking? || who.None? then Done(PuntToStopper(s1, r, who))
        else Done(MoveIfAllowed(s1, r, who.value, dest))
  }

  /** __set_cpus_allowed_ptr_locked for a caller other than migrate_enable. */
  function SetCpusAllowed(s: State, c: Caller, newMask: set<Cpu>, dest: Cpu, onSelf: bool, check: bool): Outcome {
    if !(newMask <= s.possible) then Done(s)                                       // -EINVAL
    else if check && s.noSetAffinity then Done(s)                                  // -EINVAL
    else if s.task.mask == newMask then Done(s)
    else if onSelf && s.task.disabled > 0 && s.task.cpu !in newMask then Done(s)   // -EBUSY
    else if newMask * s.online == {} then Done(s)                                  // -EINVAL
    else AffineMove(s.(task := s.task.(mask := newMask)), Some(c), dest)
  }

  /** migrate_enable up to, but not including, the store migration_disabled = 0. */
  function EnableSection(s: State, dest: Cpu): Outcome {
    var t := s.task;
    if t.disabled > 1 then Done(s.(task := t.(disabled := t.disabled - 1)))
    else if t.ptr.OwnMask? then Done(s.(task := t.(disabled := 0)))
    else if !(t.mask <= s.possible) || t.mask * s.online == {} then Done(s.(task := t.(enabling := true)))    // -EINVAL
    else AffineMove(s.(task := t.(ptr := OwnMask, enabling := true)), None, dest)
  }

  function DropWork(s: State, k: nat): State
    requires k < |s.works|
  {
    s.(works := s.works[..k] + s.works[k + 1..])
  }

  /** stop_one_cpu_nowait: after a chase the CPU is read here, outside the locks. */
  function QueueWorkStep(s: State, k: nat): Outcome
    requires k < |s.works| && s.works[k].ToQueue?
  {
    var w := s.works[k];
    if w.req !in s.reqs then UseAfterFree
    else
      var cpu := if w.target.Some? then w.target.value else s.task.cpu;
      var phases := if w.kicker.ByCaller? then s.phases[w.kicker.c := Waiting(w.req)] else s.phases;
      Done(s.(works := s.works[k := OnStopper(w.req, cpu)], phases := phases))
  }

  /** flush_smp_call_function_from_idle: a task waking on this CPU is activated first. */
  function FlushStep(s: State, k: nat): State
    requires k < |s.works| && s.works[k].OnStopper?
  {
    var w := s.works[k];
    var t := s.task;
    var t1 := if t.run.Waking? && t.cpu == w.cpu then t.(run := Queued) else t;
    s.(works := s.works[k := Flushed(w.req, w.cpu)], task := t1)
  }

  /** The lock section of migration_cpu_stop, with a request. */
  function StopperSection(s: State, k: nat): Outcome
    requires k < |s.works| && s.works[k].Flushed?
  {
    var w := s.works[k];
    var t := s.task;
    if w.req !in s.reqs then UseAfterFree
    else if t.pending != Some(w.req) then Warned(WARN_STALE_PENDING, s)
    else
      var out := SetStopPending(DropWork(s, k), w.req, false);
      if t.cpu == w.cpu then
        if t.disabled > 0 then Done(out)
        else
          var u := Uninstall(out, w.req);
          var dest := s.reqs[w.req].dest;
          if t.cpu !in t.mask && t.run.Queued? && dest in t.EffectiveMask() * s.online
          then Done(u.(task := u.task.(cpu := dest)))
          else Done(u)
      else if t.cpu in t.EffectiveMask() then Done(Uninstall(out, w.req))
      else if !s.reqs[w.req].stopPending then Warned(WARN_NO_STOP_PENDING, s)
      else Done(s.(works := s.works[k := ToQueue(w.req, ByStopper, None)]))
  }

  /** complete_all */
  function SignalStep(s: State, k: nat): Outcome
    requires k < |s.signals|
  {
    var r := s.signals[k];
    if r !in s.reqs then UseAfterFree
    else Done(s.(reqs := s.reqs[r := s.reqs[r].(done := true)],
                 signals := s.signals[..k] + s.signals[k + 1..]))
  }

  /** The rest of affine_move_task once wait_for_completion returns: drop the reference. */
  function WaiterStep(s: State, c: Caller): Outcome
    requires c in s.phases && s.phases[c].Waiting?
  {
    var r := s.phases[c].req;
    if r !in s.reqs || s.reqs[r].refs == 0 then UseAfterFree
    else
      var q := s.reqs[r];
      var phases := if c == r then s.phases[c := Draining] else s.phases - {c};
      Done(s.(reqs := s.reqs[r := q.(refs := q.refs - 1)], phases := phases))
  }

  /** The owner leaves affine_move_task and its stack frame dies. */
  function OwnerStep(s: State, c: Caller): Outcome
    requires c in s.phases && s.phases[c].Draining?
  {
    if c !in s.reqs then UseAfterFree
    else if s.reqs[c].stopPending then Warned(WARN_STOP_PENDING_AT_RETURN, s)
    else Done(s.(reqs := s.reqs - {c}, phases := s.phases - {c}))
  }

  function SwitchOutStep(s: State, kind: SwitchKind): State {
    var t := s.task;
    var run := match kind case Preempt => Queued case Sleep => Blocked case SleepRacingWake => Waking;
    var ptr := if t.disabled > 0 && t.ptr.OwnMask? then PinnedTo(t.cpu) else t.ptr;
    s.(task := t.(run := run, ptr := ptr))
  }

  // ---------------------------------------------------------------- when a step can happen

  /** What the rest of the kernel guarantees about the moment each step is taken. */
  predicate Enabled(s: State, e: Event) {
    var t := s.task;
    match e
    case SetAffinity(c, newMask, dest, onSelf, check) =>
      && c !in s.phases
      && (newMask * s.online != {} ==> dest in newMask * s.online)
      && (onSelf ==> t.run.Running? && !t.enabling)
    case MigrateDisable => t.run.Running? && !t.enabling
    case MigrateEnable(dest) =>
      && t.run.Running? && !t.enabling && t.disabled > 0
      && (t.mask * s.online != {} ==> dest in t.mask * s.online)
    case EnableFinish => t.enabling && forall k | 0 <= k < |s.works| ::
        !(s.works[k].ToQueue? && s.works[k].kicker.ByTask?)
    case QueueWork(k) => k < |s.works| && s.works[k].ToQueue?
    case StopperFlush(k) =>
      k < |s.works| && s.works[k].OnStopper? && !(t.run.Running? && t.cpu == s.works[k].cpu)
    case StopperRun(k) =>
      k < |s.works| && s.works[k].Flushed? && !(t.run.Running? && t.cpu == s.works[k].cpu)
    case Signal(k) => k < |s.signals|
    case WaiterWakes(c) =>
      && c in s.phases && s.phases[c].Waiting?
      && (s.phases[c].req in s.reqs ==> s.reqs[s.phases[c].req].done)
    case OwnerReturns(c) =>
      c in s.phases && s.phases[c].Draining? && (c in s.reqs ==> s.reqs[c].refs == 0)
    case SwitchIn => t.run.Queued?
    case SwitchOut(_) => t.run.Running? && !t.enabling
    case WakeUp(cpu) => t.run.Blocked? && cpu in t.EffectiveMask() * s.online
    case Activate => t.run.Waking?
    case Balance(cpu) => t.run.Queued? && t.disabled == 0 && cpu in t.EffectiveMask() * s.online
  }

  function Next(s: State, e: Event): Outcome
    requires Enabled(s, e)
  {
    var t := s.task;
    match e
    case SetAffinity(c, newMask, dest, onSelf, check) => SetCpusAllowed(s, c, newMask, dest, onSelf, check)
    case MigrateDisable => Done(s.(task := t.(disabled := t.disabled + 1)))
    case MigrateEnable(dest) => EnableSection(s, dest)
    case EnableFinish => Done(s.(task := t.(disabled := 0, enabling := false)))
    case QueueWork(k) => QueueWorkStep(s, k)
    case StopperFlush(k) => Done(FlushStep(s, k))
    case StopperRun(k) => StopperSection(s, k)
    case Signal(k) => SignalStep(s, k)
    case WaiterWakes(c) => WaiterStep(s, c)
    case OwnerReturns(c) => OwnerStep(s, c)
    case SwitchIn => Done(s.(task := t.(run := Running)))
    case SwitchOut(kind) => Done(SwitchOutStep(s, kind))
    case WakeUp(cpu) => Done(s.(task := t.(run := Waking, cpu := cpu)))
    case Activate => Done(s.(task := t.(run := Queued)))
    case Balance(cpu) => Done(s.(task := t.(cpu := cpu)))
  }

  /** A task that nobody has asked to move yet. */
  predicate Init(s: State) {
    && s.task.cpu in s.task.mask * s.online && s.task.mask <= s.possible
    && s.task.ptr.OwnMask? && s.task.disabled == 0 && !s.task.enabling && s.task.pending.None?
    && s.reqs == map[] && s.phases == map[] && s.works == [] && s.signals == []
  }

  /** ss are the states a run of the events es goes through. A warning does not stop a run. */
  ghost predicate Run(ss: seq<State>, es: seq<Event>) {
    && |ss| == |es| + 1
    && Init(ss[0])
    && forall i | 0 <= i < |es| ::
         && Enabled(ss[i], es[i])
         && !Next(ss[i], es[i]).UseAfterFree?
         && Next(ss[i], es[i]).s == ss[i + 1]
  }

  // ---------------------------------------------------------------- the run invariant

  predicate TaskOk(s: State) {
    var t := s.task;
    && t.cpu in s.online
    && t.mask * s.online != {} && t.mask <= s.possible
    && (t.ptr.PinnedTo? ==> t.disabled > 0 && t.ptr.cpu == t.cpu)
    && (t.disabled > 0 && !t.run.Running? ==> t.ptr.PinnedTo?)
    && (t.enabling ==> t.run.Running? && t.disabled == 1 && t.ptr.OwnMask?)
  }

  /** An installed request of a task on a forbidden CPU knows an allowed one. */
  predicate DestOk(s: State) {
    var t := s.task;
    t.pending.Some? && t.cpu !in t.mask ==>
      t.pending.value in s.reqs && s.reqs[t.pending.value].dest in t.mask * s.online
  }

  /** At most one stopper work is on its way, and only for the installed request. */
  predicate WorksOk(s: State) {
    && |s.works| <= 1
    && (s.works != [] ==>
          && s.task.pending == Some(s.works[0].req)
          && s.works[0].req in s.reqs && s.reqs[s.works[0].req].stopPending)
    && (s.works != [] && s.works[0].ToQueue? && s.works[0].kicker.ByCaller? ==>
          s.works[0].kicker.c in s.phases && s.phases[s.works[0].kicker.c] == Kicking(s.works[0].req))
    && (s.works != [] && s.works[0].ToQueue? && s.works[0].kicker.ByTask? ==> s.task.enabling)
    && (forall c | c in s.phases && s.phases[c].Kicking? ::
          s.works != [] && s.works[0].ToQueue? && s.works[0].kicker == ByCaller(c))
  }

  function Referrers(phases: map<Caller, Phase>, r: Caller): set<Caller> {
    set c | c in phases && phases[c].RefersTo(r)
  }

  /** Every live request is exactly one of: installed, about to be signalled, done. */
  predicate ReqOk(s: State, r: Caller)
    requires r in s.reqs
  {
    var q := s.reqs[r];
    && (q.done <==> s.task.pending != Some(r) && r !in s.signals)
    && (q.stopPending ==> s.task.pending == Some(r) && s.works != [])
    && q.refs == |Referrers(s.phases, r)|
    && r in s.phases
    && (s.phases[r].RefersTo(r) || (s.phases[r].Draining? && q.done))
  }

  predicate ReqsOk(s: State) {
    forall r | r in s.reqs :: ReqOk(s, r)
  }

  predicate PhasesOk(s: State) {
    forall c | c in s.phases ::
      if s.phases[c].Draining? then c in s.reqs && s.reqs[c].done else s.phases[c].req in s.reqs
  }

  predicate SignalsOk(s: State) {
    && (forall i | 0 <= i < |s.signals| :: s.signals[i] in s.reqs && s.task.pending != Some(s.signals[i]))
    && (forall i, j | 0 <= i < j < |s.signals| :: s.signals[i] != s.signals[j])
  }

  /** An installed request nobody is working on waits for the task's own migrate_enable. */
  predicate NoneLost(s: State) {
    s.task.pending.Some? ==>
      && s.task.pending.value in s.reqs
      && (!s.reqs[s.task.pending.value].stopPending ==> s.task.ptr.PinnedTo?)
  }

  predicate Inv(s: State) {
    TaskOk(s) && DestOk(s) && WorksOk(s) && ReqsOk(s) && PhasesOk(s) && SignalsOk(s) && NoneLost(s)
  }

  predicate Safe(o: Outcome) {
    !o.UseAfterFree? && (o.Warned? ==> o.line == WARN_NO_PENDING) && Inv(o.s)
  }

  // ---------------------------------------------------------------- each section keeps it

  lemma ReferrersUpdate(phases: map<Caller, Phase>, c: Caller, p: Phase, r: Caller)
    ensures Referrers(phases[c := p], r) ==
            if p.RefersTo(r) then Referrers(phases, r) + {c} else Referrers(phases, r) - {c}
  {
  }

  lemma ReferrersRemove(phases: map<Caller, Phase>, c: Caller, r: Caller)
    ensures Referrers(phases - {c}, r) == Referrers(phases, r) - {c}
  {
  }

  /** The invariant without what a fresh mask or pointer has still to re-establish. */
  predicate Core(s: State) {
    TaskOk(s) && WorksOk(s) && ReqsOk(s) && PhasesOk(s) && SignalsOk(s)
  }

  lemma UninstallKeeps(s: State, r: Caller)
    requires Core(s) && s.task.pending == Some(r) && r in s.reqs && !s.reqs[r].stopPending
    ensures Inv(Uninstall(s, r))
  {
    var u := Uninstall(s, r);
    assert ReqOk(s, r);
    forall x | x in u.reqs ensures ReqOk(u, x) {
      assert ReqOk(s, x);
    }
  }

  /** The state once caller c has joined or installed request r, before it takes a branch. */
  ghost predicate Joined(s: State, s1: State, c: Caller, r: Caller, dest: Cpu) {
    && c !in s.phases && r in s1.reqs
    && s1 == s.(task := s.task.(pending := Some(r)), reqs := s1.reqs)
    && s1.reqs.Keys == s.reqs.Keys + {r}
    && (forall x | x in s.reqs && x != r :: s1.reqs[x] == s.reqs[x])
    && s1.reqs[r].dest == dest && !s1.reqs[r].done
    && s1.reqs[r].refs == |Referrers(s.phases, r)| + 1
    && r !in s.signals
    && (s1.reqs[r].stopPending <==> s.works != [])
    && (if r in s.reqs then s.task.pending == Some(r) && !s.reqs[r].done else r == c && s.task.pending.None?)
  }

  lemma JoinedState(s: State, c: Caller, dest: Cpu)
    requires Core(s) && c !in s.phases && (s.task.pending.Some? ==> s.task.pending.value in s.reqs)
    ensures var s1 := InstallOrJoin(s, c, dest);
            s1.task.pending.Some? && Joined(s, s1, c, s1.task.pending.value, dest)
  {
    if s.task.pending.None? {
      assert Referrers(s.phases, c) == {};
    } else {
      assert ReqOk(s, s.task.pending.value);
    }
  }

  /** Adding c as a waiter of r settles the reference counts of a joined state. */
  lemma JoinedReqs(s: State, s1: State, c: Caller, r: Caller, dest: Cpu, p: Phase, x: Caller)
    requires ReqsOk(s) && Joined(s, s1, c, r, dest) && p.RefersTo(r) && x in s1.reqs
    ensures s1.reqs[x].refs == |Referrers(s1.phases[c := p], x)|
    ensures x in s1.phases[c := p]
    ensures s1.phases[c := p][x].RefersTo(x) || (s1.phases[c := p][x].Draining? && s1.reqs[x].done)
    ensures s1.reqs[x].done <==> Some(r) != Some(x) && x !in s.signals
    ensures s1.reqs[x].stopPending ==> x == r && s.works != []
  {
    ReferrersUpdate(s.phases, c, p, x);
    if x in s.reqs { assert ReqOk(s, x); }
  }

  lemma PuntReqsOk(s: State, s1: State, c: Caller, r: Caller, dest: Cpu)
    requires ReqsOk(s) && Joined(s, s1, c, r, dest)
    ensures ReqsOk(PuntToStopper(s1, r, Some(c)))
  {
    var u := PuntToStopper(s1, r, Some(c));
    forall x | x in u.reqs ensures ReqOk(u, x) {
      JoinedReqs(s, s1, c, r, dest, u.phases[c], x);
    }
  }

  lemma PuntWorksOk(s: State, s1: State, c: Caller, r: Caller, dest: Cpu)
    requires WorksOk(s) && PhasesOk(s) && Joined(s, s1, c, r, dest)
    ensures WorksOk(PuntToStopper(s1, r, Some(c))) && PhasesOk(PuntToStopper(s1, r, Some(c)))
  {
  }

  lemma PuntKeeps(s: State, s1: State, c: Caller, r: Caller, dest: Cpu)
    requires Core(s) && Joined(s, s1, c, r, dest) && dest in s.task.mask * s.online
    ensures Inv(PuntToStopper(s1, r, Some(c)))
  {
    hide ReqsOk, WorksOk, PhasesOk;
    PuntReqsOk(s, s1, c, r, dest);
    PuntWorksOk(s, s1, c, r, dest);
  }

  lemma JoinedReqsOk(s: State, s1: State, c: Caller, r: Caller, dest: Cpu, u: State)
    requires ReqsOk(s) && Joined(s, s1, c, r, dest)
    requires u == s1.(phases := s1.phases[c := Waiting(r)], task := u.task) && u.task.pending == Some(r)
    ensures ReqsOk(u)
  {
    forall x | x in u.reqs ensures ReqOk(u, x) {
      JoinedReqs(s, s1, c, r, dest, Waiting(r), x);
    }
  }

  lemma JoinedPhasesOk(s: State, s1: State, c: Caller, r: Caller, dest: Cpu, u: State)
    requires PhasesOk(s) && Joined(s, s1, c, r, dest)
    requires u.reqs == s1.reqs && u.phases == s1.phases[c := Waiting(r)]
    ensures PhasesOk(u)
  {
  }

  lemma JoinedWorksOk(s: State, s1: State, c: Caller, r: Caller, dest: Cpu, u: State)
    requires WorksOk(s) && Joined(s, s1, c, r, dest)
    requires u == s1.(phases := s1.phases[c := Waiting(r)], task := u.task)
    requires u.task.pending == Some(r) && u.task.enabling == s.task.enabling
    ensures WorksOk(u)
  {
  }

  lemma JoinedWaits(s: State, s1: State, c: Caller, r: Caller, dest: Cpu, cpu: Cpu)
    requires Core(s) && Joined(s, s1, c, r, dest)
    requires cpu == s.task.cpu || (cpu in s.online && s.task.ptr.OwnMask?)
    ensures Core(s1.(phases := s1.phases[c := Waiting(r)], task := s1.task.(cpu := cpu)))
  {
    var w := s1.(phases := s1.phases[c := Waiting(r)], task := s1.task.(cpu := cpu));
    JoinedReqsOk(s, s1, c, r, dest, w);
    JoinedPhasesOk(s, s1, c, r, dest, w);
    JoinedWorksOk(s, s1, c, r, dest, w);
    hide ReqsOk, PhasesOk, WorksOk;
  }

  lemma MoveKeeps(s: State, s1: State, c: Caller, r: Caller, dest: Cpu)
    requires Core(s) && Joined(s, s1, c, r, dest) && dest in s.task.mask * s.online
    requires s.task.run.Queued? || s.task.run.Blocked?
    ensures Inv(MoveIfAllowed(s1, r, c, dest))
  {
    var cpu := if s.task.disabled == 0 && s.task.run.Queued? then dest else s.task.cpu;
    var w := s1.(phases := s1.phases[c := Waiting(r)], task := s1.task.(cpu := cpu));
    JoinedWaits(s, s1, c, r, dest, cpu);
    hide ReqsOk, PhasesOk, SignalsOk, WorksOk;
    if s.task.disabled == 0 && !w.reqs[r].stopPending { UninstallKeeps(w, r); }
  }

  /** affine_move_task called for another task. */
  lemma AffineMoveKeeps(s: State, c: Caller, dest: Cpu)
    requires Core(s) && NoneLost(s) && c !in s.phases && dest in s.task.mask * s.online
    ensures var o := AffineMove(s, Some(c), dest); o.Done? && Inv(o.s)
  {
    var t := s.task;
    if t.cpu in t.mask {
      if t.pending.Some? && !s.reqs[t.pending.value].stopPending { UninstallKeeps(s, t.pending.value); }
    } else {
      JoinedState(s, c, dest);
      var s1 := InstallOrJoin(s, c, dest);
      if t.run.Running? || t.run.Waking? { PuntKeeps(s, s1, c, s1.task.pending.value, dest); }
      else { MoveKeeps(s, s1, c, s1.task.pending.value, dest); }
    }
  }

  /** affine_move_task called by migrate_enable, with cpus_ptr already reset. */
  lemma EnableMoveKeeps(s: State, dest: Cpu)
    requires Core(s) && DestOk(s) && s.task.enabling
    requires s.task.pending.Some? ==> s.task.pending.value in s.reqs
    ensures Safe(AffineMove(s, None, dest))
  {
    var t := s.task;
    if t.pending.Some? {
      var r := t.pending.value;
      assert ReqOk(s, r);
      if t.cpu in t.mask {
        if !s.reqs[r].stopPending { UninstallKeeps(s, r); }
      } else {
        var u := PuntToStopper(s, r, None);
        forall x | x in u.reqs ensures ReqOk(u, x) {
          assert ReqOk(s, x);
        }
      }
    }
  }

  lemma SetAffinityKeeps(s: State, c: Caller, newMask: set<Cpu>, dest: Cpu, onSelf: bool, check: bool)
    requires Inv(s) && Enabled(s, SetAffinity(c, newMask, dest, onSelf, check))
    ensures var o := SetCpusAllowed(s, c, newMask, dest, onSelf, check); o.Done? && Inv(o.s)
  {
    var s1 := s.(task := s.task.(mask := newMask));
    if newMask <= s.possible && newMask * s.online != {} {
      forall x | x in s1.reqs ensures ReqOk(s1, x) { assert ReqOk(s, x); }
      AffineMoveKeeps(s1, c, dest);
    }
  }

  lemma MigrateEnableKeeps(s: State, dest: Cpu)
    requires Inv(s) && Enabled(s, MigrateEnable(dest))
    ensures Safe(EnableSection(s, dest))
  {
    var t := s.task;
    var s1 := s.(task := t.(ptr := OwnMask, enabling := true));
    if t.disabled > 1 {
      var u := s.(task := t.(disabled := t.disabled - 1));
      forall x | x in u.reqs ensures ReqOk(u, x) { assert ReqOk(s, x); }
    } else if t.ptr.OwnMask? {
      var u := s.(task := t.(disabled := 0));
      forall x | x in u.reqs ensures ReqOk(u, x) { assert ReqOk(s, x); }
    } else {
      forall x | x in s1.reqs ensures ReqOk(s1, x) { assert ReqOk(s, x); }
      EnableMoveKeeps(s1, dest);
    }
  }

  lemma QueueWorkReqs(s: State, k: nat)
    requires Core(s) && k < |s.works| && s.works[k].ToQueue?
    ensures var o := QueueWorkStep(s, k); o.Done? && ReqsOk(o.s)
  {
    var u := QueueWorkStep(s, k).s;
    forall x | x in u.reqs ensures ReqOk(u, x) {
      assert ReqOk(s, x);
      if s.works[k].kicker.ByCaller? {
        var c := s.works[k].kicker.c;
        ReferrersUpdate(s.phases, c, u.phases[c], x);
        assert Referrers(u.phases, x) == Referrers(s.phases, x);
      }
    }
  }

  lemma QueueWorkOthers(s: State, k: nat)
    requires Inv(s) && k < |s.works| && s.works[k].ToQueue?
    ensures var o := QueueWorkStep(s, k);
            && o.Done? && WorksOk(o.s) && PhasesOk(o.s) && SignalsOk(o.s)
            && o.s == s.(works := o.s.works, phases := o.s.phases)
  {
    hide ReqsOk, TaskOk, DestOk, NoneLost;
  }

  lemma QueueWorkKeeps(s: State, k: nat)
    requires Inv(s) && Enabled(s, QueueWork(k))
    ensures Safe(QueueWorkStep(s, k))
  {
    hide ReqsOk, WorksOk, PhasesOk, SignalsOk, QueueWorkStep;
    QueueWorkReqs(s, k);
    QueueWorkOthers(s, k);
  }

  /** The request at x is untouched by a step. */
  lemma ReqFrame(s: State, u: State, x: Caller)
    requires x in s.reqs && ReqOk(s, x) && x in u.reqs && u.reqs[x] == s.reqs[x] && u.phases == s.phases
    requires (u.task.pending == Some(x) <==> s.task.pending == Some(x)) && (x in u.signals <==> x in s.signals)
    requires s.reqs[x].stopPending && s.works != [] ==> u.works != []
    ensures ReqOk(u, x)
  {
  }

  /** Where the stopper leaves the task. */
  function StopCpu(s: State, k: nat): Cpu
    requires k < |s.works| && s.works[k].Flushed? && s.works[k].req in s.reqs
  {
    var t, dest := s.task, s.reqs[s.works[k].req].dest;
    if t.cpu == s.works[k].cpu && t.cpu !in t.mask && t.run.Queued? && dest in t.EffectiveMask() * s.online
    then dest else t.cpu
  }

  /** The three ways out of the stopper's lock section: put off, complete, chase. */
  lemma StopperCases(s: State, k: nat)
    requires Inv(s) && Enabled(s, StopperRun(k))
    ensures k == 0 && s.works[0].req in s.reqs && s.task.pending == Some(s.works[0].req)
    ensures var w, t := s.works[0], s.task;
            var out := SetStopPending(DropWork(s, 0), w.req, false);
            && out.works == []
            && StopperSection(s, k) ==
               Done(if t.cpu == w.cpu && t.disabled > 0 then out
                    else if t.cpu == w.cpu || t.cpu in t.EffectiveMask() then
                      var u := Uninstall(out, w.req);
                      u.(task := u.task.(cpu := StopCpu(s, 0)))
                    else s.(works := [ToQueue(w.req, ByStopper, None)]))
  {
    hide ReqsOk, PhasesOk, SignalsOk;
    assert s.works == [s.works[0]];
  }

  lemma StopperOutKeeps(s: State)
    requires Inv(s) && s.works != [] && s.works[0].Flushed?
    ensures var r := s.works[0].req;
            r in s.reqs && s.task.pending == Some(r) && Core(SetStopPending(DropWork(s, 0), r, false))
  {
    var r := s.works[0].req;
    var out := SetStopPending(DropWork(s, 0), r, false);
    forall x | x in out.reqs ensures ReqOk(out, x) {
      assert ReqOk(s, x);
      if x != r { ReqFrame(s, out, x); }
    }
    hide ReqOk;
  }

  lemma ChaseKeeps(s: State)
    requires Inv(s) && s.works != [] && s.works[0].Flushed?
    ensures Inv(s.(works := [ToQueue(s.works[0].req, ByStopper, None)]))
  {
    var u := s.(works := [ToQueue(s.works[0].req, ByStopper, None)]);
    forall x | x in u.reqs ensures ReqOk(u, x) { assert ReqOk(s, x); ReqFrame(s, u, x); }
    hide ReqOk;
  }

  lemma StopperRunKeeps(s: State, k: nat)
    requires Inv(s) && Enabled(s, StopperRun(k))
    ensures var o := StopperSection(s, k); o.Done? && Inv(o.s)
  {
    hide StopperSection, ReqsOk, PhasesOk, SignalsOk;
    StopperCases(s, k);
    StopperOutKeeps(s);
    ChaseKeeps(s);
    var w, t := s.works[0], s.task;
    var out := SetStopPending(DropWork(s, 0), w.req, false);
    UninstallKeeps(out, w.req);
    var u := Uninstall(out, w.req);
    if t.cpu == w.cpu || t.cpu in t.EffectiveMask() {
      if !(t.cpu == w.cpu && t.disabled > 0) { TaskOnlyKeeps(u, u.task.(cpu := StopCpu(s, 0))); }
    }
  }

  lemma RemoveAt(xs: seq<Caller>, k: nat, x: Caller)
    requires k < |xs| && forall i, j | 0 <= i < j < |xs| :: xs[i] != xs[j]
    ensures var ys := xs[..k] + xs[k + 1..];
            && (x in ys <==> x in xs && x != xs[k])
            && (forall i, j | 0 <= i < j < |ys| :: ys[i] != ys[j])
  {
    var ys := xs[..k] + xs[k + 1..];
    assert xs == xs[..k] + [xs[k]] + xs[k + 1..];
    assert forall i | 0 <= i < |ys| :: ys[i] == xs[if i < k then i else i + 1];
  }

  lemma SignalKeeps(s: State, k: nat)
    requires Inv(s) && Enabled(s, Signal(k))
    ensures Safe(SignalStep(s, k))
  {
    var u := SignalStep(s, k).s;
    var r := s.signals[k];
    RemoveAt(s.signals, k, r);
    forall x | x in u.reqs ensures ReqOk(u, x) {
      assert ReqOk(s, x);
      RemoveAt(s.signals, k, x);
    }
    forall i | 0 <= i < |u.signals| ensures u.signals[i] in s.signals {
      RemoveAt(s.signals, k, u.signals[i]);
    }
  }

  lemma WaiterReqs(s: State, c: Caller)
    requires ReqsOk(s) && PhasesOk(s) && c in s.phases && s.phases[c].Waiting? && Enabled(s, WaiterWakes(c))
    ensures var r := s.phases[c].req;
            r in s.reqs && s.reqs[r].done && s.reqs[r].refs > 0 && WaiterStep(s, c).Done? && ReqsOk(WaiterStep(s, c).s)
  {
    var r := s.phases[c].req;
    assert ReqOk(s, r);
    assert c in Referrers(s.phases, r);
    var u := WaiterStep(s, c).s;
    forall x | x in u.reqs ensures ReqOk(u, x) {
      assert ReqOk(s, x);
      ReferrersUpdate(s.phases, c, Draining, x);
      ReferrersRemove(s.phases, c, x);
    }
  }

  lemma WaiterOthers(s: State, c: Caller)
    requires Inv(s) && c in s.phases && s.phases[c].Waiting? && WaiterStep(s, c).Done?
    requires s.phases[c].req in s.reqs && s.reqs[s.phases[c].req].done
    ensures var u := WaiterStep(s, c).s;
            && WorksOk(u) && PhasesOk(u) && SignalsOk(u)
            && u.task == s.task && u.online == s.online && u.possible == s.possible && DestOk(u) && NoneLost(u)
  {
    hide ReqsOk, TaskOk;
  }

  lemma WaiterKeeps(s: State, c: Caller)
    requires Inv(s) && Enabled(s, WaiterWakes(c))
    ensures Safe(WaiterStep(s, c))
  {
    hide ReqsOk, WorksOk, PhasesOk, SignalsOk, WaiterStep;
    WaiterReqs(s, c);
    WaiterOthers(s, c);
  }

  lemma OwnerReqs(s: State, c: Caller)
    requires ReqsOk(s) && PhasesOk(s) && c in s.phases && s.phases[c].Draining? && Enabled(s, OwnerReturns(c))
    ensures c in s.reqs && s.reqs[c].done && !s.reqs[c].stopPending && OwnerStep(s, c).Done? &&
        ReqsOk(OwnerStep(s, c).s)
    ensures forall d | d in s.phases && !s.phases[d].Draining? :: s.phases[d].req != c
    ensures c !in s.signals && s.task.pending != Some(c)
  {
    assert ReqOk(s, c);
    assert Referrers(s.phases, c) == {};
    var u := OwnerStep(s, c).s;
    forall x | x in u.reqs ensures ReqOk(u, x) {
      assert ReqOk(s, x);
      ReferrersRemove(s.phases, c, x);
    }
    assert forall d | d in s.phases && !s.phases[d].Draining? :: d in Referrers(s.phases, s.phases[d].req);
  }

  lemma OwnerOthers(s: State, c: Caller)
    requires Inv(s) && c in s.phases && s.phases[c].Draining? && c in s.reqs && OwnerStep(s, c).Done?
    requires forall d | d in s.phases && !s.phases[d].Draining? :: s.phases[d].req != c
    requires c !in s.signals && s.task.pending != Some(c)
    ensures var u := OwnerStep(s, c).s;
            && WorksOk(u) && PhasesOk(u) && SignalsOk(u)
            && u.task == s.task && u.online == s.online && u.possible == s.possible && DestOk(u) && NoneLost(u)
  {
    hide ReqsOk, TaskOk;
  }

  lemma OwnerKeeps(s: State, c: Caller)
    requires Inv(s) && Enabled(s, OwnerReturns(c))
    ensures Safe(OwnerStep(s, c))
  {
    hide ReqsOk, WorksOk, PhasesOk, SignalsOk, OwnerStep;
    OwnerReqs(s, c);
    OwnerOthers(s, c);
  }

  /** The steps that only touch the task itself. */
  lemma TaskOnlyKeeps(s: State, t: Task)
    requires Inv(s) && t.pending == s.task.pending
    requires TaskOk(s.(task := t)) && DestOk(s.(task := t)) && NoneLost(s.(task := t))
    requires s.task.enabling && !t.enabling ==>
               forall k | 0 <= k < |s.works| :: !(s.works[k].ToQueue? && s.works[k].kicker.ByTask?)
    ensures Inv(s.(task := t))
  {
    var u := s.(task := t);
    forall x | x in u.reqs ensures ReqOk(u, x) { assert ReqOk(s, x); }
  }

  lemma FlushKeeps(s: State, k: nat)
    requires Inv(s) && Enabled(s, StopperFlush(k))
    ensures Inv(FlushStep(s, k))
  {
    var u := FlushStep(s, k);
    forall x | x in u.reqs ensures ReqOk(u, x) { assert ReqOk(s, x); }
  }

  /**
   Every step from an invariant state keeps the invariant, touches no dead request, and
   trips none of the warnings at 2322, 2379 and 2776.
   */
  lemma StepSafe(s: State, e: Event)
    requires Inv(s) && Enabled(s, e)
    ensures Safe(Next(s, e))
  {
    match e
    case SetAffinity(c, newMask, dest, onSelf, check) => SetAffinityKeeps(s, c, newMask, dest, onSelf, check);
    case MigrateEnable(dest) => MigrateEnableKeeps(s, dest);
    case QueueWork(k) => QueueWorkKeeps(s, k);
    case StopperFlush(k) => FlushKeeps(s, k);
    case StopperRun(k) => StopperRunKeeps(s, k);
    case Signal(k) => SignalKeeps(s, k);
    case WaiterWakes(c) => WaiterKeeps(s, c);
    case OwnerReturns(c) => OwnerKeeps(s, c);
    case _ => TaskOnlyKeeps(s, Next(s, e).s.task);
  }

  // ---------------------------------------------------------------- what every run keeps

  lemma {:induction false} RunKeepsInv(ss: seq<State>, es: seq<Event>, i: nat)
    requires Run(ss, es) && i < |ss|
    ensures Inv(ss[i])
  {
    if i > 0 {
      RunKeepsInv(ss, es, i - 1);
      StepSafe(ss[i - 1], es[i - 1]);
    }
  }

  /** Whatever comes next in any run, no dead request is touched and 2322, 2379, 2776 stay silent. */
  lemma WarningsUnreachable(ss: seq<State>, es: seq<Event>, e: Event)
    requires Run(ss, es) && Enabled(ss[|es|], e)
    ensures var o := Next(ss[|es|], e);
            !o.UseAfterFree? &&
            (o.Warned? ==> o.line !in {WARN_STALE_PENDING, WARN_NO_STOP_PENDING, WARN_STOP_PENDING_AT_RETURN})
  {
    RunKeepsInv(ss, es, |es|);
    StepSafe(ss[|es|], e);
  }

  /** Caller r is inside affine_move_task, its request unsignalled. */
  predicate StillBlocked(s: State, r: Caller) {
    r in s.reqs && !s.reqs[r].done && r in s.phases && s.phases[r].RefersTo(r)
  }

  /**
   The installed request, the argument of every stopper work and every request about to
   be signalled belong to a caller that is still blocked; works are only ever for the
   installed request and there is at most one.
   */
  lemma RequestsAreAlive(ss: seq<State>, es: seq<Event>, i: nat)
    requires Run(ss, es) && i < |ss|
    ensures var s := ss[i];
            && (s.task.pending.Some? ==> StillBlocked(s, s.task.pending.value))
            && (forall k | 0 <= k < |s.works| ::
                  StillBlocked(s, s.works[k].req) && s.task.pending == Some(s.works[k].req))
            && |s.works| <= 1
            && (forall k | 0 <= k < |s.signals| ::
                  StillBlocked(s, s.signals[k]) && s.task.pending != Some(s.signals[k]))
            && (forall c | c in s.phases && !s.phases[c].Draining? :: s.phases[c].req in s.reqs)
  {
    RunKeepsInv(ss, es, i);
    var s := ss[i];
    forall r | r in s.reqs && !s.reqs[r].done ensures StillBlocked(s, r) { assert ReqOk(s, r); }
    forall k | 0 <= k < |s.signals| ensures !s.reqs[s.signals[k]].done { assert ReqOk(s, s.signals[k]); }
    if s.task.pending.Some? { assert ReqOk(s, s.task.pending.value); }
  }

  lemma AffineMoveDoneFrame(s: State, who: Option<Caller>, dest: Cpu, r: Caller)
    requires r in s.reqs && who != Some(r) && !AffineMove(s, who, dest).UseAfterFree?
    ensures var s' := AffineMove(s, who, dest).s; r in s'.reqs && s'.reqs[r].done == s.reqs[r].done
  {
  }

  /** Only a signal changes a request's done flag and only its owner's return ends its life. */
  lemma DoneFrame(s: State, e: Event, r: Caller)
    requires Enabled(s, e) && r in s.reqs && (e.SetAffinity? ==> e.c !in s.reqs)
    requires !Next(s, e).UseAfterFree?
    ensures var s' := Next(s, e).s;
            if e == OwnerReturns(r) then !s.reqs[r].stopPending ==> r !in s'.reqs
            else r in s'.reqs && s'.reqs[r].done == (s.reqs[r].done || (e.Signal? && s.signals[e.k] == r))
  {
    var t := s.task;
    match e
    case SetAffinity(c, newMask, dest, onSelf, check) =>
      hide AffineMove;
      if SetCpusAllowed(s, c, newMask, dest, onSelf, check) != Done(s) {
        AffineMoveDoneFrame(s.(task := t.(mask := newMask)), Some(c), dest, r);
      }
    case MigrateEnable(dest) =>
      hide AffineMove;
      if t.disabled == 1 && t.ptr.PinnedTo? && t.mask <= s.possible && t.mask * s.online != {} {
        AffineMoveDoneFrame(s.(task := t.(ptr := OwnMask, enabling := true)), None, dest, r);
      }
    case _ =>
      hide AffineMove;
  }

  /**
   complete_all is called for a request only once in its lifetime and only after it was
   uninstalled: it is not done before, done after, and stays done and uninstalled until
   its owner returns.
   */
  lemma CompletedOnce(s: State, e: Event, r: Caller)
    requires Inv(s) && Enabled(s, e) && r in s.reqs
    ensures var o := Next(s, e);
            && !o.UseAfterFree?
            && (e.Signal? && s.signals[e.k] == r ==>
                  !s.reqs[r].done && s.task.pending != Some(r) && r in o.s.reqs && o.s.reqs[r].done)
            && (if e == OwnerReturns(r) then s.reqs[r].done && r !in o.s.reqs
                else r in o.s.reqs && (s.reqs[r].done ==>
                       o.s.reqs[r].done && r !in o.s.signals && o.s.task.pending != Some(r)))
  {
    StepSafe(s, e);
    assert ReqOk(s, r);
    DoneFrame(s, e, r);
    var s' := Next(s, e).s;
    if r in s'.reqs { assert ReqOk(s', r); }
  }

  /** The step's lock section decides that a request is complete. */
  predicate Decides(s: State, s': State) {
    |s'.signals| > |s.signals|
  }

  /** Deciding completion leaves the task off every runqueue or on a CPU of *p->cpus_ptr. */
  lemma DecidedWhenPlaced(s: State, e: Event)
    requires Inv(s) && Enabled(s, e)
    ensures var o := Next(s, e);
            !o.UseAfterFree? && (Decides(s, o.s) ==> o.s.task.OffRunqueue() || o.s.task.cpu in o.s.task.EffectiveMask())
  {
    hide ReqsOk, PhasesOk, SignalsOk, StopperSection;
    StepSafe(s, e);
    if e.StopperRun? { StopperCases(s, e.k); }
  }

  /**
   The promise of set_cpus_allowed_ptr is stronger: the task is on a CPU of the mask that
   was asked for. The stopper breaks it in one case: it finds the task on another CPU,
   pinned there by a migrate-disable region, outside cpus_mask (the test at 2368 reads
   cpus_ptr where the one at 2337 reads cpus_mask).
   */
  predicate PinnedElsewhere(s: State, e: Event) {
    && e.StopperRun? && e.k < |s.works| && s.works[e.k].Flushed?
    && s.task.cpu != s.works[e.k].cpu && s.task.ptr.PinnedTo? && s.task.cpu !in s.task.mask
  }

  lemma PromiseKeptExactly(s: State, e: Event)
    requires Inv(s) && Enabled(s, e)
    ensures var o := Next(s, e);
            !o.UseAfterFree? &&
            (Decides(s, o.s) ==>
               (o.s.task.OffRunqueue() || o.s.task.cpu in o.s.task.mask <==>
                !(PinnedElsewhere(s, e) && !s.task.OffRunqueue())))
  {
    hide ReqsOk, PhasesOk, SignalsOk, StopperSection;
    StepSafe(s, e);
    if e.StopperRun? { StopperCases(s, e.k); }
  }

  // ---------------------------------------------------------------- no waiter is forgotten

  /**
   A blocked caller always has someone who will complete its request: a signal or a
   stopper work is on its way, or the task is pinned and must pass through migrate_enable.
   */
  lemma WaiterHasHelper(ss: seq<State>, es: seq<Event>, i: nat, c: Caller)
    requires Run(ss, es) && i < |ss|
    requires c in ss[i].phases && !ss[i].phases[c].Draining?
    ensures var s := ss[i]; var r := s.phases[c].req;
            || (r in s.reqs && s.reqs[r].done)
            || r in s.signals
            || (|s.works| == 1 && s.works[0].req == r)
            || (s.task.pending == Some(r) && s.task.disabled > 0 && s.task.ptr.PinnedTo?)
  {
    RunKeepsInv(ss, es, i);
    assert ReqOk(ss[i], ss[i].phases[c].req);
  }

  /** The outermost migrate_enable serves the request that waited for it. */
  lemma EnableServes(s: State, dest: Cpu)
    requires Inv(s) && Enabled(s, MigrateEnable(dest)) && s.task.disabled == 1
    requires s.task.pending.Some? && s.task.ptr.PinnedTo?
    ensures var s' := EnableSection(s, dest).s; var r := s.task.pending.value;
            if s.task.cpu in s.task.mask && !s.reqs[r].stopPending
            then s'.task.pending.None? && r in s'.signals
            else |s'.works| == 1 && s'.works[0].req == r
  {
    assert ReqOk(s, s.task.pending.value);
    MigrateEnableKeeps(s, dest);
  }

  // ---------------------------------------------------------------- the warning at 2719

  /** A task on a forbidden CPU has a request installed, or is asleep and will be placed when it wakes. */
  predicate Attended(s: State) {
    s.task.cpu !in s.task.mask ==>
      s.task.pending.Some? || (s.task.run.Blocked? && s.task.disabled == 0)
  }

  /**
   The stopper forgets a task: it is pinned elsewhere, or it was woken onto this very CPU
   after the flush and is not queued yet.
   */
  predicate Forgets(s: State, e: Event) {
    || PinnedElsewhere(s, e)
    || (&& e.StopperRun? && e.k < |s.works| && s.works[e.k].Flushed?
        && s.task.cpu == s.works[e.k].cpu && s.task.cpu !in s.task.mask
        && s.task.disabled == 0 && s.task.run.Waking?)
  }

  /** Exactly these stopper sections leave a task on a forbidden CPU with nobody asked to move it. */
  lemma AttendedExactly(s: State, e: Event)
    requires Inv(s) && Enabled(s, e) && Attended(s)
    ensures Next(s, e).Done?
    ensures Attended(Next(s, e).s) <==> !Forgets(s, e)
  {
    hide ReqsOk, PhasesOk, SignalsOk, StopperSection;
    StepSafe(s, e);
    if e.StopperRun? { StopperCases(s, e.k); }
  }

  lemma {:induction false} AttendedRun(ss: seq<State>, es: seq<Event>, i: nat)
    requires Run(ss, es) && i < |ss|
    requires forall j | 0 <= j < i :: !Forgets(ss[j], es[j])
    ensures Attended(ss[i])
  {
    if i > 0 {
      AttendedRun(ss, es, i - 1);
      RunKeepsInv(ss, es, i - 1);
      AttendedExactly(ss[i - 1], es[i - 1]);
    }
  }

  /** In a run without such a stopper section migrate_enable never finds its request missing. */
  lemma NoWarningUnlessForgotten(ss: seq<State>, es: seq<Event>, e: Event)
    requires Run(ss, es) && Enabled(ss[|es|], e)
    requires forall j | 0 <= j < |es| :: !Forgets(ss[j], es[j])
    ensures Next(ss[|es|], e).Done?
  {
    RunKeepsInv(ss, es, |es|);
    AttendedRun(ss, es, |es|);
    AttendedExactly(ss[|es|], e);
  }
}
