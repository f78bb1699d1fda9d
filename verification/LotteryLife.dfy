/**
 A task's life around the lottery class: fork, wake-up, sleep, setscheduler, priority
 inheritance, renice, group move and CPU migration (kernel/sched/core.c, kernel/fork.c),
 each as one step under the locks the code holds. The other classes are seen only
 through what they do to the lottery runqueues: nothing.
 */
module LotteryLife {
  import opened Wrappers
  import opened Errno
  import opened LotteryQueue

  type Cpu = nat

  const SCHED_NORMAL := 0
  const SCHED_FIFO := 1
  const SCHED_RR := 2
  const SCHED_BATCH := 3
  const SCHED_IDLE := 5
  const SCHED_DEADLINE := 6
  const MAX_DL_PRIO := 0
  const MAX_RT_PRIO := 100
  const DEFAULT_PRIO := 120
  const MIN_NICE := -20
  const MAX_NICE := 19
  const FORK_TICKETS := 5

  datatype Class = Stop | Dl | Rt | Fair | Idle | Lottery

  datatype OnRq = NotQueued | OnQueue | Migrating

  /** The fields of task_struct these steps read or write. special marks the idle and stop threads. */
  datatype Task = Task(
    policy: int, class_: Class, onRq: OnRq, cpu: Cpu, tickets: nat, isNew: bool, special: bool,
    resetOnFork: bool, staticPrio: int, normalPrio: int, prio: int, rtPriority: int)

  datatype State = State(tasks: map<Pid, Task>, rqs: map<Cpu, Rq>)

  /** struct sched_attr; badFlags says that an unknown flag bit is set. */
  datatype Attr = Attr(
    policy: int, priority: nat, nice: int, resetOnFork: bool, keepParams: bool, utilClamp: bool, badFlags: bool)

  /** What a call returned, the new state, and whether switched_from_lottery was called. */
  datatype Outcome = Outcome(ret: int, s: State, switchedFrom: bool)

  predicate RtPolicy(policy: int) { policy == SCHED_FIFO || policy == SCHED_RR }
  predicate DlPolicy(policy: int) { policy == SCHED_DEADLINE }
  predicate LtrPolicy(policy: int) { policy == SCHED_LOTTERY }
  predicate FairPolicy(policy: int) { policy == SCHED_NORMAL || policy == SCHED_BATCH }

  predicate ValidPolicy(policy: int) {
    policy == SCHED_IDLE || FairPolicy(policy) || RtPolicy(policy) || DlPolicy(policy) || LtrPolicy(policy)
  }

  predicate DlPrio(prio: int) { prio < MAX_DL_PRIO }
  predicate RtPrio(prio: int) { prio < MAX_RT_PRIO }

  function NormalPrio(policy: int, rtPriority: int, nice: int): int {
    if DlPolicy(policy) then MAX_DL_PRIO - 1
    else if RtPolicy(policy) then MAX_RT_PRIO - 1 - rtPriority
    else nice + DEFAULT_PRIO
  }

  /** __setscheduler_prio */
  function SetPrio(t: Task, prio: int): Task {
    var c :=
      if t.policy == SCHED_LOTTERY then Lottery
      else if DlPrio(prio) then Dl
      else if RtPrio(prio) then Rt
      else Fair;
    t.(class_ := c, prio := prio)
  }

  // ---------------------------------------------------------------- the code's operations

  /** enqueue_task as the lottery runqueues see it. */
  function Enqueue(s: State, p: Pid): State
    requires p in s.tasks && s.tasks[p].cpu in s.rqs
  {
    var t := s.tasks[p];
    if t.class_.Lottery? then s.(rqs := s.rqs[t.cpu := Enqueued(s.rqs[t.cpu], p, t.tickets)]) else s
  }

  function Dequeue(s: State, p: Pid): State
    requires p in s.tasks && s.tasks[p].cpu in s.rqs
  {
    var t := s.tasks[p];
    if t.class_.Lottery? then s.(rqs := s.rqs[t.cpu := Dequeued(s.rqs[t.cpu], p, t.tickets)]) else s
  }

  function Put(s: State, p: Pid, t: Task): State {
    s.(tasks := s.tasks[p := t])
  }

  /** Take p off its queue if it is on one, change it to t, and put it back. */
  function Requeue(s: State, p: Pid, t: Task): State
    requires p in s.tasks && s.tasks[p].cpu in s.rqs && t.cpu in s.rqs
  {
    if s.tasks[p].onRq.OnQueue? then Enqueue(Put(Dequeue(s, p), p, t), p) else Put(s, p, t)
  }

  /**
   check_class_changed: leaving the lottery class calls switched_from_lottery, which
   dequeues a second time (list_del left the list pointers non-empty).
   */
  function ClassChanged(s: State, p: Pid, prev: Class): Outcome
    requires p in s.tasks && s.tasks[p].cpu in s.rqs
  {
    var t := s.tasks[p];
    if prev.Lottery? && !t.class_.Lottery? then
      Outcome(0, s.(rqs := s.rqs[t.cpu := Dequeued(s.rqs[t.cpu], p, t.tickets)]), true)
    else Outcome(0, s, false)
  }

  function Fail(s: State, err: int): Outcome {
    Outcome(-err, s, false)
  }

  /** copy_process through sched_fork, then the ticket grant of kernel_clone. */
  function Fork(s: State, parent: Pid, child: Pid, cpu: Cpu): Outcome
    requires parent in s.tasks
  {
    var c0 := s.tasks[parent].(onRq := NotQueued, isNew := true, special := false, cpu := cpu);
    var c1 := c0.(prio := c0.normalPrio);
    var c2 :=
      if !c1.resetOnFork then c1
      else
        var d :=
          if DlPolicy(c1.policy) || RtPolicy(c1.policy)
          then c1.(policy := SCHED_NORMAL, staticPrio := DEFAULT_PRIO, rtPriority := 0)
          else if c1.staticPrio - DEFAULT_PRIO < 0 then c1.(staticPrio := DEFAULT_PRIO) else c1;
        d.(prio := d.staticPrio, normalPrio := d.staticPrio, resetOnFork := false);
    if c2.policy != SCHED_LOTTERY && DlPrio(c2.prio) then Fail(s, EAGAIN)
    else
      var cls := if c2.policy == SCHED_LOTTERY then Lottery else if RtPrio(c2.prio) then Rt else Fair;
      Outcome(0, Put(s, child, c2.(class_ := cls, tickets := FORK_TICKETS)), false)
  }

  /** wake_up_new_task and try_to_wake_up: pick a CPU, then activate. */
  function Activate(s: State, p: Pid, cpu: Cpu): State
    requires p in s.tasks && cpu in s.rqs
  {
    Enqueue(Put(s, p, s.tasks[p].(cpu := cpu, isNew := false, onRq := OnQueue)), p)
  }

  /** deactivate_task, for sleep (to = NotQueued) or for a migration (to = Migrating). */
  function Deactivate(s: State, p: Pid, to: OnRq): State
    requires p in s.tasks && s.tasks[p].cpu in s.rqs
  {
    Put(Dequeue(s, p), p, s.tasks[p].(onRq := to))
  }

  /**
   __sched_setscheduler. refuse is an error some check outside the model raises (permission,
   security hook, clamp validation); topWaiter is the priority of the top PI waiter if the
   call takes PI into account; dlOk and dlOverflow are the deadline class's answers.
   */
  function SetScheduler(s: State, p: Pid, a: Attr, refuse: Option<int>, topWaiter: Option<int>, dlOk: bool,
      dlOverflow: bool): Outcome
    requires p in s.tasks && s.tasks[p].cpu in s.rqs && (refuse.Some? ==> refuse.value > 0)
  {
    var t := s.tasks[p];
    var policy := if a.policy < 0 then t.policy else a.policy;
    var reset := if a.policy < 0 then t.resetOnFork else a.resetOnFork;
    if a.policy >= 0 && !ValidPolicy(policy) then Fail(s, EINVAL)
    else if a.badFlags then Fail(s, EINVAL)
    else if a.priority > MAX_RT_PRIO - 1 then Fail(s, EINVAL)
    else if (DlPolicy(policy) && !dlOk) || RtPolicy(policy) != (a.priority != 0) || !LtrPolicy(policy)
        then Fail(s, EINVAL)
    else if refuse.Some? then Fail(s, refuse.value)
    else if t.class_.Stop? then Fail(s, EINVAL)
    else if policy == t.policy && !a.utilClamp then Outcome(0, Put(s, p, t.(resetOnFork := reset)), false)
    else if (DlPolicy(policy) || DlPrio(t.prio)) && dlOverflow then Fail(s, EBUSY)
    else
      var t1 := t.(resetOnFork := reset);
      var newprio := Boosted(NormalPrio(policy, a.priority, a.nice), topWaiter);
      Change(s, p, if a.keepParams then t1 else SetPrio(SetParams(t1, policy, a.priority), newprio))
  }

  /** rt_effective_prio */
  function Boosted(prio: int, donor: Option<int>): int {
    if donor.Some? && donor.value < prio then donor.value else prio
  }

  /** __setscheduler_params for a policy that is neither deadline nor fair. */
  function SetParams(t: Task, policy: int, priority: nat): Task {
    t.(policy := policy, rtPriority := priority,
       normalPrio := NormalPrio(policy, priority, t.staticPrio - DEFAULT_PRIO))
  }

  /** Requeue under a possibly new class and tell the classes. */
  function Change(s: State, p: Pid, t: Task): Outcome
    requires p in s.tasks && s.tasks[p].cpu in s.rqs && t.cpu in s.rqs
  {
    ClassChanged(Requeue(s, p, t), p, s.tasks[p].class_)
  }

  /** rt_mutex_setprio: donor is the priority of the task to inherit from, or None to deboost. */
  function PiBoost(s: State, p: Pid, donor: Option<int>): Outcome
    requires p in s.tasks && s.tasks[p].cpu in s.rqs
  {
    var t := s.tasks[p];
    var prio := Boosted(t.normalPrio, donor);
    if prio == t.prio && !DlPrio(prio) then Outcome(0, s, false)
    else Change(s, p, SetPrio(t, prio))
  }

  /** set_user_nice */
  function Renice(s: State, p: Pid, nice: int): State
    requires p in s.tasks && s.tasks[p].cpu in s.rqs
  {
    var t := s.tasks[p];
    if t.staticPrio - DEFAULT_PRIO == nice || nice < MIN_NICE || nice > MAX_NICE then s
    else if DlPolicy(t.policy) || RtPolicy(t.policy) then Put(s, p, t.(staticPrio := nice + DEFAULT_PRIO))
    else
      var normal := NormalPrio(t.policy, t.rtPriority, nice);
      Requeue(s, p, t.(staticPrio := nice + DEFAULT_PRIO, normalPrio := normal,
                       prio := if RtPrio(t.prio) then t.prio else normal))
  }

  // ---------------------------------------------------------------- steps and runs

  datatype Event =
    | Forks(parent: Pid, child: Pid, cpu: Cpu)
    | WakesNew(p: Pid, cpu: Cpu)
    | Wakes(p: Pid, cpu: Cpu)
    | Sleeps(p: Pid)
    | Detaches(p: Pid)
    | Attaches(p: Pid, cpu: Cpu)
    | SetsScheduler(p: Pid, a: Attr, refuse: Option<int>, topWaiter: Option<int>, dlOk: bool, dlOverflow: bool)
    | Boosts(p: Pid, donor: Option<int>)
    | Renices(p: Pid, nice: int)
    | MovesGroup(p: Pid)
    | Dies(p: Pid)

  predicate Ordinary(s: State, p: Pid) {
    p in s.tasks && !s.tasks[p].special
  }

  predicate Enabled(s: State, e: Event) {
    match e
    case Forks(parent, child, cpu) => parent in s.tasks && child !in s.tasks && cpu in s.rqs
    case WakesNew(p, cpu) => Ordinary(s, p) && s.tasks[p].isNew && s.tasks[p].onRq.NotQueued? && cpu in s.rqs
    case Wakes(p, cpu) => Ordinary(s, p) && !s.tasks[p].isNew && s.tasks[p].onRq.NotQueued? && cpu in s.rqs
    case Sleeps(p) => Ordinary(s, p) && s.tasks[p].onRq.OnQueue?
    case Detaches(p) => Ordinary(s, p) && s.tasks[p].onRq.OnQueue?
    case Attaches(p, cpu) => Ordinary(s, p) && s.tasks[p].onRq.Migrating? && cpu in s.rqs
    case SetsScheduler(p, a, refuse, topWaiter, dlOk, dlOverflow) =>
      Ordinary(s, p) && !s.tasks[p].onRq.Migrating? && (refuse.Some? ==> refuse.value > 0)
    case Boosts(p, donor) => Ordinary(s, p) && !s.tasks[p].onRq.Migrating?
    case Renices(p, nice) => Ordinary(s, p) && !s.tasks[p].onRq.Migrating?
    case MovesGroup(p) => Ordinary(s, p) && !s.tasks[p].onRq.Migrating?
    case Dies(p) => Ordinary(s, p) && s.tasks[p].onRq.NotQueued?
  }

  predicate CpusOk(s: State) {
    forall p | p in s.tasks :: s.tasks[p].cpu in s.rqs
  }

  function Next(s: State, e: Event): Outcome
    requires Enabled(s, e) && CpusOk(s)
  {
    match e
    case Forks(parent, child, cpu) => Fork(s, parent, child, cpu)
    case WakesNew(p, cpu) => Outcome(0, Activate(s, p, cpu), false)
    case Wakes(p, cpu) => Outcome(0, Activate(s, p, cpu), false)
    case Sleeps(p) => Outcome(0, Deactivate(s, p, NotQueued), false)
    case Detaches(p) => Outcome(0, Deactivate(s, p, Migrating), false)
    case Attaches(p, cpu) => Outcome(0, Activate(s, p, cpu), false)
    case SetsScheduler(p, a, refuse, topWaiter, dlOk, dlOverflow) =>
      SetScheduler(s, p, a, refuse, topWaiter, dlOk, dlOverflow)
    case Boosts(p, donor) => PiBoost(s, p, donor)
    case Renices(p, nice) => Outcome(0, Renice(s, p, nice), false)
    case MovesGroup(p) => Outcome(0, Requeue(s, p, s.tasks[p]), false)
    case Dies(p) => Outcome(0, s.(tasks := s.tasks - {p}), false)
  }

  /** Only the idle and stop threads, and empty lottery runqueues. */
  predicate Init(s: State) {
    && CpusOk(s)
    && (forall c | c in s.rqs :: s.rqs[c] == EMPTY_RQ)
    && (forall p | p in s.tasks :: s.tasks[p].special && (s.tasks[p].class_.Stop? || s.tasks[p].class_.Idle?))
  }

  ghost predicate Run(ss: seq<State>, es: seq<Event>) {
    && |ss| == |es| + 1
    && Init(ss[0])
    && forall i | 0 <= i < |es| :: CpusOk(ss[i]) && Enabled(ss[i], es[i]) && Next(ss[i], es[i]).s == ss[i + 1]
  }

  // ---------------------------------------------------------------- the run invariant

  /** The policy is lottery exactly when the class is; the idle and stop threads keep their own classes. */
  predicate ClassOk(t: Task) {
    if t.special then t.class_.Stop? || t.class_.Idle?
    else (t.policy == SCHED_LOTTERY <==> t.class_.Lottery?) && !t.class_.Stop?
  }

  predicate ClassesOk(s: State) {
    forall p | p in s.tasks :: ClassOk(s.tasks[p])
  }

  /** p belongs on the lottery list of CPU c. */
  predicate QueuedOn(s: State, p: Pid, c: Cpu) {
    p in s.tasks && s.tasks[p].onRq.OnQueue? && s.tasks[p].class_.Lottery? && s.tasks[p].cpu == c
  }

  function EntitiesOf(s: State): Entities {
    map p | p in s.tasks :: Entity(s.tasks[p].policy, s.tasks[p].tickets)
  }

  /** The list of CPU c holds exactly its queued lottery tasks, once each, and the counters agree with it. */
  ghost predicate RqOk(s: State, c: Cpu)
    requires c in s.rqs
  {
    && (forall p :: p in s.rqs[c].queue <==> QueuedOn(s, p, c))
    && CountersOk(s.rqs[c], EntitiesOf(s))
  }

  ghost predicate Inv(s: State) {
    CpusOk(s) && ClassesOk(s) && forall c | c in s.rqs :: RqOk(s, c)
  }

  // ---------------------------------------------------------------- each operation keeps it

  /** Taking p off its list, with p no longer counted as queued. */
  lemma LeaveKeeps(s: State, p: Pid, t: Task)
    requires Inv(s) && p in s.tasks && s.tasks[p].onRq.OnQueue?
    requires !t.onRq.OnQueue? && ClassOk(t) && t.cpu in s.rqs && t.tickets == s.tasks[p].tickets
    ensures Inv(Put(Dequeue(s, p), p, t))
  {
    var u := Put(Dequeue(s, p), p, t);
    forall c | c in u.rqs ensures RqOk(u, c) {
      LeaveRq(s, p, t, c);
    }
  }

  lemma LeaveRq(s: State, p: Pid, t: Task, c: Cpu)
    requires CpusOk(s) && c in s.rqs && RqOk(s, c) && p in s.tasks && s.tasks[p].onRq.OnQueue?
    requires !t.onRq.OnQueue? && t.tickets == s.tasks[p].tickets
    ensures RqOk(Put(Dequeue(s, p), p, t), c)
  {
    var u := Put(Dequeue(s, p), p, t);
    var ts, us := EntitiesOf(s), EntitiesOf(u);
    assert forall x | x != p :: QueuedOn(u, x, c) <==> QueuedOn(s, x, c);
    if QueuedOn(s, p, c) {
      assert u.rqs[c] == Dequeued(s.rqs[c], p, ts[p].tickets);
      DequeuedCounters(s.rqs[c], p, ts);
      forall x ensures x in u.rqs[c].queue <==> x in s.rqs[c].queue && x != p { LeaveMember(s.rqs[c], p, x, ts); }
    } else {
      assert u.rqs[c] == s.rqs[c];
    }
    CountersFrame(u.rqs[c], ts, us);
    hide CountersOk, Dequeue;
  }

  lemma LeaveMember(rq: Rq, p: Pid, x: Pid, ts: Entities)
    requires CountersOk(rq, ts)
    ensures x in Remove(rq.queue, p) <==> x in rq.queue && x != p
  {
    RemoveMember(rq.queue, p, x);
  }

  /** Changing a task that is on no list, and staying off. */
  lemma OffQueueKeeps(s: State, p: Pid, t: Task)
    requires Inv(s) && (p in s.tasks ==> !s.tasks[p].onRq.OnQueue?)
    requires !t.onRq.OnQueue? && ClassOk(t) && t.cpu in s.rqs
    ensures Inv(Put(s, p, t))
  {
    hide ClassOk, CountersOk;
    var u := Put(s, p, t);
    forall c | c in u.rqs ensures RqOk(u, c) {
      assert RqOk(s, c);
      CountersFrame(s.rqs[c], EntitiesOf(s), EntitiesOf(u));
    }
  }

  /** Joining the list of its class and CPU. */
  lemma JoinKeeps(s: State, p: Pid, t: Task)
    requires Inv(s) && p in s.tasks && !s.tasks[p].onRq.OnQueue?
    requires t.onRq.OnQueue? && ClassOk(t) && t.cpu in s.rqs && t.tickets == s.tasks[p].tickets
    ensures Inv(Enqueue(Put(s, p, t), p))
  {
    var u := Enqueue(Put(s, p, t), p);
    forall c | c in u.rqs ensures RqOk(u, c) {
      JoinRq(s, p, t, c);
    }
  }

  lemma JoinRq(s: State, p: Pid, t: Task, c: Cpu)
    requires CpusOk(s) && c in s.rqs && RqOk(s, c) && p in s.tasks && !s.tasks[p].onRq.OnQueue?
    requires t.onRq.OnQueue? && t.cpu in s.rqs && t.tickets == s.tasks[p].tickets
    ensures RqOk(Enqueue(Put(s, p, t), p), c)
  {
    var u := Enqueue(Put(s, p, t), p);
    var us := EntitiesOf(u);
    assert forall x | x != p :: QueuedOn(u, x, c) <==> QueuedOn(s, x, c);
    CountersFrame(s.rqs[c], EntitiesOf(s), us);
    if t.class_.Lottery? && t.cpu == c {
      EnqueuedCounters(s.rqs[c], p, us);
      assert u.rqs[c] == Enqueued(s.rqs[c], p, us[p].tickets);
      assert p in u.rqs[c].queue && forall x | x != p :: x in u.rqs[c].queue <==> x in s.rqs[c].queue;
    } else {
      assert u.rqs[c] == s.rqs[c];
    }
    hide CountersOk, Enqueue;
  }

  /** Dequeue, change, enqueue: in between the task is off every list. */
  lemma RequeueKeeps(s: State, p: Pid, t: Task)
    requires Inv(s) && p in s.tasks && t.onRq == s.tasks[p].onRq && !t.onRq.Migrating?
    requires ClassOk(t) && t.cpu in s.rqs && t.tickets == s.tasks[p].tickets
    ensures Inv(Requeue(s, p, t)) && Requeue(s, p, t).tasks == s.tasks[p := t]
  {
    hide RqOk;
    if s.tasks[p].onRq.OnQueue? {
      var away := t.(onRq := NotQueued);
      LeaveKeeps(s, p, away);
      var mid := Put(Dequeue(s, p), p, away);
      JoinKeeps(mid, p, t);
      assert Put(mid, p, t) == Put(Dequeue(s, p), p, t);
    } else {
      OffQueueKeeps(s, p, t);
    }
  }

  /** A change that does not leave the lottery class keeps the lists and calls no switched_from_lottery. */
  lemma ChangeKeeps(s: State, p: Pid, t: Task)
    requires Inv(s) && p in s.tasks && t.onRq == s.tasks[p].onRq && !t.onRq.Migrating?
    requires ClassOk(t) && t.cpu in s.rqs && t.tickets == s.tasks[p].tickets
    requires s.tasks[p].class_.Lottery? ==> t.class_.Lottery?
    ensures var o := Change(s, p, t); Inv(o.s) && o.s.tasks == s.tasks[p := t] && !o.switchedFrom && o.ret == 0
  {
    RequeueKeeps(s, p, t);
  }

  /** __sched_setscheduler fails, stores reset_on_fork, or changes the task. */
  lemma SetSchedulerCases(s: State, e: Event)
    requires CpusOk(s) && e.SetsScheduler? && Enabled(s, e)
    ensures var o := SetScheduler(s, e.p, e.a, e.refuse, e.topWaiter, e.dlOk, e.dlOverflow);
            var t := s.tasks[e.p];
            var t1 := t.(resetOnFork := if e.a.policy < 0 then t.resetOnFork else e.a.resetOnFork);
            var newprio := Boosted(NormalPrio(SCHED_LOTTERY, e.a.priority, e.a.nice), e.topWaiter);
            || (o.s == s && !o.switchedFrom)
            || o == Outcome(0, Put(s, e.p, t1), false)
            || o == Change(s, e.p, t1)
            || o == Change(s, e.p, SetPrio(SetParams(t1, SCHED_LOTTERY, e.a.priority), newprio))
  {
    hide Change;
  }

  lemma SetSchedulerKeeps(s: State, e: Event)
    requires Inv(s) && e.SetsScheduler? && Enabled(s, e)
    ensures var o := SetScheduler(s, e.p, e.a, e.refuse, e.topWaiter, e.dlOk, e.dlOverflow);
            Inv(o.s) && !o.switchedFrom
  {
    var t := s.tasks[e.p];
    var t1 := t.(resetOnFork := if e.a.policy < 0 then t.resetOnFork else e.a.resetOnFork);
    var newprio := Boosted(NormalPrio(SCHED_LOTTERY, e.a.priority, e.a.nice), e.topWaiter);
    assert ClassOk(t);
    SetSchedulerCases(s, e);
    RequeueSame(s, e.p, t1);
    ChangeKeeps(s, e.p, SetPrio(SetParams(t1, SCHED_LOTTERY, e.a.priority), newprio));
    ChangeKeeps(s, e.p, t1);
    hide RqOk, Change, ClassesOk, SetScheduler;
  }

  /** A store to a field the lists do not depend on. */
  lemma RequeueSame(s: State, p: Pid, t: Task)
    requires Inv(s) && p in s.tasks && ClassOk(t)
    requires t.onRq == s.tasks[p].onRq && t.class_ == s.tasks[p].class_ && t.cpu == s.tasks[p].cpu
    requires t.tickets == s.tasks[p].tickets
    ensures Inv(Put(s, p, t))
  {
    hide ClassOk, CountersOk;
    var u := Put(s, p, t);
    forall c | c in u.rqs ensures RqOk(u, c) {
      assert RqOk(s, c);
      assert forall x :: QueuedOn(u, x, c) <==> QueuedOn(s, x, c);
      CountersFrame(s.rqs[c], EntitiesOf(s), EntitiesOf(u));
    }
  }

  lemma DieKeeps(s: State, p: Pid)
    requires Inv(s) && p in s.tasks && s.tasks[p].onRq.NotQueued?
    ensures Inv(s.(tasks := s.tasks - {p}))
  {
    var u := s.(tasks := s.tasks - {p});
    forall c | c in u.rqs ensures RqOk(u, c) {
      assert RqOk(s, c);
      CountersFrame(s.rqs[c], EntitiesOf(s), EntitiesOf(u));
    }
  }

  /** Every step keeps the invariant and never reaches switched_from_lottery. */
  lemma StepKeeps(s: State, e: Event)
    requires Inv(s) && Enabled(s, e)
    ensures var o := Next(s, e); Inv(o.s) && !o.switchedFrom
  {
    hide RqOk;
    match e
    case Forks(parent, child, cpu) =>
      var o := Fork(s, parent, child, cpu);
      if o.ret == 0 { OffQueueKeeps(s, child, o.s.tasks[child]); }
    case WakesNew(p, cpu) => JoinKeeps(s, p, s.tasks[p].(cpu := cpu, isNew := false, onRq := OnQueue));
    case Wakes(p, cpu) => JoinKeeps(s, p, s.tasks[p].(cpu := cpu, isNew := false, onRq := OnQueue));
    case Attaches(p, cpu) => JoinKeeps(s, p, s.tasks[p].(cpu := cpu, isNew := false, onRq := OnQueue));
    case Sleeps(p) => LeaveKeeps(s, p, s.tasks[p].(onRq := NotQueued));
    case Detaches(p) => LeaveKeeps(s, p, s.tasks[p].(onRq := Migrating));
    case SetsScheduler(p, a, refuse, topWaiter, dlOk, dlOverflow) => SetSchedulerKeeps(s, e);
    case Boosts(p, donor) =>
      ChangeKeeps(s, p, SetPrio(s.tasks[p], Boosted(s.tasks[p].normalPrio, donor)));
    case Renices(p, nice) =>
      var t := s.tasks[p];
      if DlPolicy(t.policy) || RtPolicy(t.policy) { RequeueSame(s, p, t.(staticPrio := nice + DEFAULT_PRIO)); }
      var normal := NormalPrio(t.policy, t.rtPriority, nice);
      RequeueKeeps(s, p, t.(staticPrio := nice + DEFAULT_PRIO, normalPrio := normal,
                            prio := if RtPrio(t.prio) then t.prio else normal));
    case MovesGroup(p) => RequeueKeeps(s, p, s.tasks[p]);
    case Dies(p) => DieKeeps(s, p);
  }

  lemma {:induction false} RunKeeps(ss: seq<State>, es: seq<Event>, i: nat)
    requires Run(ss, es) && i < |ss|
    ensures Inv(ss[i])
  {
    if i == 0 {
      forall c | c in ss[0].rqs ensures RqOk(ss[0], c) { }
    } else {
      RunKeeps(ss, es, i - 1);
      StepKeeps(ss[i - 1], es[i - 1]);
    }
  }

  // ---------------------------------------------------------------- what every run keeps

  /** In every reachable state each list holds exactly its queued lottery tasks and the counters agree. */
  lemma CountersAgree(ss: seq<State>, es: seq<Event>, i: nat, c: Cpu)
    requires Run(ss, es) && i < |ss| && c in ss[i].rqs
    ensures var s := ss[i]; var rq := s.rqs[c];
            && Consistent(rq, EntitiesOf(s))
            && (forall p :: p in rq.queue <==>
                  p in s.tasks && s.tasks[p].onRq.OnQueue? && s.tasks[p].policy == SCHED_LOTTERY
                  && s.tasks[p].cpu == c && !s.tasks[p].special)
  {
    RunKeeps(ss, es, i);
    assert RqOk(ss[i], c);
    var s := ss[i];
    forall p | p in s.tasks ensures ClassOk(s.tasks[p]) { }
  }

  /** So the draw on any CPU in any reachable state is fair, and the scan's policy test never skips a task. */
  lemma ReachableDrawIsFair(ss: seq<State>, es: seq<Event>, i: nat, c: Cpu, k: nat)
    requires Run(ss, es) && i < |ss| && c in ss[i].rqs && k < |ss[i].rqs[c].queue|
    ensures var rq, ts := ss[i].rqs[c], EntitiesOf(ss[i]); var p := rq.queue[k];
            && Known(rq.queue, ts)
            && ts[p].policy == SCHED_LOTTERY
            && (0 < Tickets(rq.queue, ts) < U32 ==>
                  && rq.totalTickets == Tickets(rq.queue, ts)
                  && Wins(rq.queue, ts, p, rq.totalTickets) == ts[p].tickets
                  && ts[p].tickets * (U32 / rq.totalTickets) <= WordWins(rq, ts, p, U32)
                  && WordWins(rq, ts, p, U32) <= ts[p].tickets * (U32 / rq.totalTickets + 1))
  {
    hide Wins, WordWins, Tickets, Run;
    CountersAgree(ss, es, i, c);
    var rq, ts := ss[i].rqs[c], EntitiesOf(ss[i]);
    if 0 < Tickets(rq.queue, ts) < U32 {
      ExactShare(rq.queue, ts, k);
      WordShare(rq, ts, k);
    }
  }

  /** No step of any run takes a living task out of SCHED_LOTTERY, so switched_from_lottery is never called. */
  lemma LotteryIsAbsorbing(ss: seq<State>, es: seq<Event>, e: Event, p: Pid)
    requires Run(ss, es) && CpusOk(ss[|es|]) && Enabled(ss[|es|], e)
    requires Ordinary(ss[|es|], p) && ss[|es|].tasks[p].policy == SCHED_LOTTERY
    ensures var o := Next(ss[|es|], e);
            && !o.switchedFrom
            && (p in o.s.tasks ==> o.s.tasks[p].policy == SCHED_LOTTERY && o.s.tasks[p].class_.Lottery?)
            && (p !in o.s.tasks ==> e == Dies(p))
  {
    RunKeeps(ss, es, |es|);
    StepKeeps(ss[|es|], e);
    PolicyStays(ss[|es|], e, p);
  }

  /** The operations only replace the task they are for. */
  lemma OnlyThatTask(s: State, p: Pid, t: Task)
    requires CpusOk(s) && p in s.tasks && t.cpu in s.rqs
    ensures Requeue(s, p, t).tasks == s.tasks[p := t]
    ensures Change(s, p, t).s.tasks == s.tasks[p := t]
    ensures forall to :: Deactivate(s, p, to).tasks == s.tasks[p := s.tasks[p].(onRq := to)]
    ensures Activate(s, p, t.cpu).tasks == s.tasks[p := s.tasks[p].(cpu := t.cpu, isNew := false, onRq := OnQueue)]
  {
  }

  lemma PolicyStays(s: State, e: Event, p: Pid)
    requires CpusOk(s) && ClassesOk(s) && Enabled(s, e) && Ordinary(s, p) && s.tasks[p].policy == SCHED_LOTTERY
    ensures var o := Next(s, e);
            if p in o.s.tasks then o.s.tasks[p].policy == SCHED_LOTTERY && o.s.tasks[p].class_.Lottery?
                else e == Dies(p)
  {
    hide SetScheduler, Requeue, Change, Deactivate, Activate;
    assert ClassOk(s.tasks[p]);
    forall q, t: Task | q in s.tasks && t.cpu in s.rqs
      ensures Requeue(s, q, t).tasks == s.tasks[q := t] && Change(s, q, t).s.tasks == s.tasks[q := t]
    {
      OnlyThatTask(s, q, t);
    }
    if e.SetsScheduler? {
      SetSchedulerCases(s, e);
    } else if e.Sleeps? || e.Detaches? {
      OnlyThatTask(s, e.p, s.tasks[e.p]);
    } else if e.Wakes? || e.WakesNew? || e.Attaches? {
      OnlyThatTask(s, e.p, s.tasks[e.p].(cpu := e.cpu));
    }
  }

  /**
   __sched_setscheduler succeeds only for a request that amounts to SCHED_LOTTERY with
   priority 0, and, when nothing outside refuses, for every such request with known flags.
   A request for any other policy, valid or not, fails with -EINVAL.
   */
  lemma SetSchedulerAcceptsExactly(s: State, p: Pid, a: Attr, refuse: Option<int>, topWaiter: Option<int>, dlOk: bool,
      dlOverflow: bool)
    requires Inv(s) && Ordinary(s, p) && (refuse.Some? ==> refuse.value > 0)
    ensures var o := SetScheduler(s, p, a, refuse, topWaiter, dlOk, dlOverflow);
            var t := s.tasks[p];
            var asked := if a.policy < 0 then t.policy else a.policy;
            && (o.ret == 0 <==>
                  && asked == SCHED_LOTTERY && a.priority == 0 && !a.badFlags && refuse.None?
                  && ((t.policy == SCHED_LOTTERY && !a.utilClamp) || !(DlPrio(t.prio) && dlOverflow)))
            && (asked != SCHED_LOTTERY ==> o.ret == -EINVAL)
            && (o.ret != 0 ==> o.s == s)
            && (o.ret == 0 ==>
                  && p in o.s.tasks
                  && (o.s.tasks[p].policy == SCHED_LOTTERY <==> t.policy == SCHED_LOTTERY || !a.keepParams))
  {
    assert ClassOk(s.tasks[p]);
    forall t: Task | t.cpu in s.rqs ensures Change(s, p, t).s.tasks == s.tasks[p := t] { OnlyThatTask(s, p, t); }
  }
}
