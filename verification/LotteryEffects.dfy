/**
 What each event in a task's life does, apart from keeping the lists and counters right:
 which task it changes and how, and how it changes the lists of the lottery runqueues.
 */
module LotteryEffects {
  import opened Wrappers
  import opened Errno
  import opened LotteryQueue
  import opened LotteryLife

  /** The task an event is about. */
  function Subject(e: Event): Pid {
    match e
    case Forks(_, child, _) => child
    case WakesNew(p, _) => p
    case Wakes(p, _) => p
    case Sleeps(p) => p
    case Detaches(p) => p
    case Attaches(p, _) => p
    case SetsScheduler(p, _, _, _, _, _) => p
    case Boosts(p, _) => p
    case Renices(p, _) => p
    case MovesGroup(p) => p
    case Dies(p) => p
  }

  // ---------------------------------------------------------------- lists

  /** The lists of two states are the same but for p, in the same order. */
  ghost predicate SameButFor(s: State, s': State, p: Pid) {
    s'.rqs.Keys == s.rqs.Keys && forall c | c in s.rqs :: Remove(s'.rqs[c].queue, p) == Remove(s.rqs[c].queue, p)
  }

  predicate OnNoList(s: State, p: Pid) {
    forall c | c in s.rqs :: p !in s.rqs[c].queue
  }

  predicate ListsDistinct(s: State) {
    forall c | c in s.rqs :: NoDup(s.rqs[c].queue)
  }

  lemma {:induction false} RemoveTail(q: seq<Pid>, p: Pid)
    requires p !in q
    ensures Remove(q + [p], p) == q
  {
    if q != [] {
      assert (q + [p])[0] == q[0] && (q + [p])[1..] == q[1..] + [p];
      RemoveTail(q[1..], p);
    }
  }

  lemma RemoveTwice(q: seq<Pid>, p: Pid)
    requires NoDup(q)
    ensures Remove(Remove(q, p), p) == Remove(q, p) && p !in Remove(q, p)
  {
    RemoveMember(q, p, p);
    RemoveAbsent(Remove(q, p), p);
    hide Remove;
  }

  lemma EnqueueLists(s: State, p: Pid)
    requires p in s.tasks && s.tasks[p].cpu in s.rqs && OnNoList(s, p)
    ensures SameButFor(s, Enqueue(s, p), p) && Enqueue(s, p).tasks == s.tasks
    ensures s.tasks[p].class_.Lottery? ==>
              Enqueue(s, p).rqs[s.tasks[p].cpu].queue == s.rqs[s.tasks[p].cpu].queue + [p]
  {
    forall c | c in s.rqs ensures Remove(Enqueue(s, p).rqs[c].queue, p) == Remove(s.rqs[c].queue, p) {
      RemoveAbsent(s.rqs[c].queue, p);
      RemoveTail(s.rqs[c].queue, p);
    }
    hide Remove;
  }

  lemma DequeueLists(s: State, p: Pid)
    requires p in s.tasks && s.tasks[p].cpu in s.rqs && ListsDistinct(s)
    requires forall c | c in s.rqs && p in s.rqs[c].queue :: c == s.tasks[p].cpu && s.tasks[p].class_.Lottery?
    ensures SameButFor(s, Dequeue(s, p), p) && OnNoList(Dequeue(s, p), p) && Dequeue(s, p).tasks == s.tasks
  {
    RemoveTwice(s.rqs[s.tasks[p].cpu].queue, p);
    hide Remove;
  }

  /** Off the list and on again: everyone else keeps their place, and a queued lottery task goes to the tail. */
  ghost predicate Requeued(s: State, s': State, p: Pid)
    requires p in s'.tasks
  {
    && SameButFor(s, s', p)
    && var t := s'.tasks[p];
       t.onRq.OnQueue? && t.class_.Lottery? && t.cpu in s'.rqs ==>
         var q := s'.rqs[t.cpu].queue; q != [] && q[|q| - 1] == p
  }

  lemma RequeueLists(s: State, p: Pid, t: Task)
    requires Inv(s) && p in s.tasks && t.onRq == s.tasks[p].onRq && t.cpu in s.rqs
    ensures Requeue(s, p, t).tasks == s.tasks[p := t]
    ensures Requeued(s, Requeue(s, p, t), p)
  {
    InvLists(s, p);
    hide Inv, Dequeue, Enqueue, ListsDistinct, OnNoList, SameButFor;
    if s.tasks[p].onRq.OnQueue? {
      DequeueLists(s, p);
      var u := Put(Dequeue(s, p), p, t);
      PutLists(Dequeue(s, p), p, t);
      EnqueueLists(u, p);
      SameTransitive(s, u, Enqueue(u, p), p);
    } else {
      PutLists(s, p, t);
    }
  }

  lemma PutLists(s: State, p: Pid, t: Task)
    ensures SameButFor(s, Put(s, p, t), p) && (OnNoList(s, p) ==> OnNoList(Put(s, p, t), p))
    ensures Put(s, p, t).rqs == s.rqs && Put(s, p, t).tasks == s.tasks[p := t]
  {
  }

  lemma SameTransitive(s: State, u: State, v: State, p: Pid)
    requires SameButFor(s, u, p) && SameButFor(u, v, p)
    ensures SameButFor(s, v, p) && v.rqs.Keys == s.rqs.Keys
  {
  }

  /** What the run invariant says of p's place. */
  lemma InvLists(s: State, p: Pid)
    requires Inv(s)
    ensures ListsDistinct(s) && (p in s.tasks ==> s.tasks[p].cpu in s.rqs)
    ensures forall c | c in s.rqs && p in s.rqs[c].queue ::
              p in s.tasks && c == s.tasks[p].cpu && s.tasks[p].class_.Lottery? && s.tasks[p].onRq.OnQueue?
    ensures !(p in s.tasks && s.tasks[p].onRq.OnQueue?) ==> OnNoList(s, p)
  {
    forall c | c in s.rqs ensures RqOk(s, c) && (p in s.rqs[c].queue <==> QueuedOn(s, p, c)) { assert RqOk(s, c); }
  }

  // ---------------------------------------------------------------- coming and going

  /** The event puts its task on a runqueue. */
  predicate Arrives(e: Event) {
    e.Wakes? || e.WakesNew? || e.Attaches?
  }

  function ArrivalCpu(e: Event): Cpu
    requires Arrives(e)
  {
    match e
    case Wakes(_, c) => c
    case WakesNew(_, c) => c
    case Attaches(_, c) => c
  }

  /**
   A task that wakes, wakes for the first time or arrives from another CPU is queued on the
   given CPU, and a lottery task is then the last on that CPU's list; nothing else changes.
   */
  lemma ArrivalEffect(s: State, e: Event)
    requires Inv(s) && Enabled(s, e) && Arrives(e)
    ensures var p, c, o := Subject(e), ArrivalCpu(e), Next(s, e);
            && o.ret == 0 && p in o.s.tasks && c in s.rqs && o.s.rqs.Keys == s.rqs.Keys
            && o.s.tasks == s.tasks[p := o.s.tasks[p]]
            && o.s.tasks[p].onRq.OnQueue? && o.s.tasks[p].cpu == c && !o.s.tasks[p].isNew
            && o.s.tasks[p] == s.tasks[p].(onRq := o.s.tasks[p].onRq, cpu := c, isNew := false)
            && (forall d | d in s.rqs && d != c :: o.s.rqs[d] == s.rqs[d])
            && o.s.rqs[c].queue == s.rqs[c].queue + (if s.tasks[p].class_.Lottery? then [p] else [])
  {
    hide Inv;
  }

  /**
   A task that sleeps or leaves for another CPU is on no list afterwards; the others keep
   their places, and nothing else changes.
   */
  lemma DepartureEffect(s: State, e: Event)
    requires Inv(s) && Enabled(s, e) && (e.Sleeps? || e.Detaches?)
    ensures var p, o := Subject(e), Next(s, e);
            && o.ret == 0 && p in o.s.tasks && p in s.tasks
            && o.s.tasks == s.tasks[p := s.tasks[p].(onRq := if e.Sleeps? then NotQueued else Migrating)]
            && OnNoList(o.s, p) && SameButFor(s, o.s, p)
  {
    var p := Subject(e);
    InvLists(s, p);
    DequeueLists(s, p);
    PutLists(Dequeue(s, p), p, s.tasks[p].(onRq := if e.Sleeps? then NotQueued else Migrating));
    hide Inv, SameButFor, OnNoList, ListsDistinct;
  }

  /** A task that dies is gone, and only that task; it was on no list. */
  lemma DeathEffect(s: State, p: Pid)
    requires Inv(s) && Enabled(s, Dies(p))
    ensures var o := Next(s, Dies(p)); o.ret == 0 && o.s.rqs == s.rqs && o.s.tasks == s.tasks - {p} && OnNoList(s, p)
  {
    InvLists(s, p);
    hide Inv;
  }

  // ---------------------------------------------------------------- fork

  /** The policy a child starts with: reset-on-fork takes real-time and deadline policies away. */
  function ChildPolicy(parent: Task): int {
    if parent.resetOnFork && (DlPolicy(parent.policy) || RtPolicy(parent.policy)) then SCHED_NORMAL else parent.policy
  }

  /**
   A fork adds exactly the child, not yet queued and on no list, with five tickets; it is a
   lottery task exactly if its policy is. It fails only for a child that is no lottery task
   and has a deadline priority, and then nothing changes.
   */
  lemma ForkEffect(s: State, parent: Pid, child: Pid, cpu: Cpu)
    requires Inv(s) && Enabled(s, Forks(parent, child, cpu))
    ensures var o, t := Next(s, Forks(parent, child, cpu)), s.tasks[parent];
            && (o.ret != 0 ==> o == Outcome(-EAGAIN, s, false))
            && (o.ret != 0 <==> ChildPolicy(t) != SCHED_LOTTERY && ChildPrio(t) < 0)
            && (o.ret == 0 ==>
                  && o.s.rqs == s.rqs && OnNoList(s, child) && child in o.s.tasks
                  && o.s.tasks == s.tasks[child := o.s.tasks[child]]
                  && var c := o.s.tasks[child];
                     && c.onRq.NotQueued? && c.isNew && !c.special && c.cpu == cpu && c.tickets == 5
                     && c.policy == ChildPolicy(t) && (c.class_.Lottery? <==> c.policy == SCHED_LOTTERY)
                     && c.prio == ChildPrio(t) && c.staticPrio == ChildStatic(t) && !c.resetOnFork)
  {
    InvLists(s, child);
    hide Inv;
  }

  /** The nice value a child starts with, as a priority: reset-on-fork takes negative ones away. */
  function ChildStatic(parent: Task): int {
    if parent.resetOnFork && (ChildPolicy(parent) != parent.policy || parent.staticPrio < DEFAULT_PRIO)
    then DEFAULT_PRIO else parent.staticPrio
  }

  function ChildPrio(parent: Task): int {
    if parent.resetOnFork then ChildStatic(parent) else parent.normalPrio
  }

  // ---------------------------------------------------------------- changes of a task

  /** What no change of scheduling parameters touches. */
  predicate SamePlace(t: Task, t': Task) {
    t'.onRq == t.onRq && t'.cpu == t.cpu && t'.tickets == t.tickets && t'.isNew == t.isNew && t'.special == t.special
  }

  /** Exactly p has changed, in its parameters, and has been taken off its list and put back. */
  ghost predicate Reparameterized(s: State, s': State, p: Pid) {
    && p in s.tasks && p in s'.tasks && s'.tasks == s.tasks[p := s'.tasks[p]]
    && SamePlace(s.tasks[p], s'.tasks[p])
    && (s'.rqs == s.rqs || Requeued(s, s', p))
  }

  /** A change inside or into the lottery class is a requeue. */
  lemma ChangeLists(s: State, p: Pid, t: Task)
    requires Inv(s) && p in s.tasks && SamePlace(s.tasks[p], t)
    requires s.tasks[p].class_.Lottery? ==> t.class_.Lottery?
    ensures t.cpu in s.rqs && Change(s, p, t).ret == 0 && Reparameterized(s, Change(s, p, t).s, p)
    ensures Change(s, p, t).s.tasks == s.tasks[p := t]
  {
    InvLists(s, p);
    RequeueLists(s, p, t);
    hide Inv, Requeue, Requeued;
  }

  lemma PutReparameterizes(s: State, p: Pid, t: Task)
    requires p in s.tasks && SamePlace(s.tasks[p], t)
    ensures Reparameterized(s, Put(s, p, t), p) && Put(s, p, t).tasks == s.tasks[p := t]
  {
  }

  /** The parameters a successful request leaves: policy and flags of t, and its priority. */
  predicate Granted(t: Task, t': Task, a: Attr, topWaiter: Option<int>) {
    var kept := a.keepParams || (t.policy == SCHED_LOTTERY && !a.utilClamp);
    && t'.resetOnFork == (if a.policy < 0 then t.resetOnFork else a.resetOnFork)
    && t'.staticPrio == t.staticPrio
    && (kept ==> t'.policy == t.policy && t'.class_ == t.class_ && t'.prio == t.prio)
    && (!kept ==>
          && t'.policy == SCHED_LOTTERY && t'.class_.Lottery? && t'.rtPriority == 0
          && t'.normalPrio == t.staticPrio
          && t'.prio == (if topWaiter.Some? && topWaiter.value < a.nice + DEFAULT_PRIO
                         then topWaiter.value else a.nice + DEFAULT_PRIO))
  }

  /** The task a request makes of t. */
  function GrantedTask(t: Task, a: Attr, topWaiter: Option<int>): Task {
    var t1 := t.(resetOnFork := if a.policy < 0 then t.resetOnFork else a.resetOnFork);
    if a.keepParams || (t.policy == SCHED_LOTTERY && !a.utilClamp) then t1
    else SetPrio(SetParams(t1, SCHED_LOTTERY, 0), Boosted(NormalPrio(SCHED_LOTTERY, 0, a.nice), topWaiter))
  }

  lemma GrantedTaskFacts(t: Task, a: Attr, topWaiter: Option<int>)
    ensures var t' := GrantedTask(t, a, topWaiter);
            SamePlace(t, t') && Granted(t, t', a, topWaiter) && (t.class_.Lottery? ==> t'.class_.Lottery?)
  {
  }

  lemma SetSchedulerForm(s: State, e: Event)
    requires CpusOk(s) && e.SetsScheduler? && Enabled(s, e)
    ensures var o, t := Next(s, e), s.tasks[e.p];
            if o.ret != 0 then o.s == s
            else
              var t' := GrantedTask(t, e.a, e.topWaiter);
              o == if t.policy == SCHED_LOTTERY && !e.a.utilClamp then Outcome(0, Put(s, e.p, t'), false)
                   else Change(s, e.p, t')
  {
    var t' := GrantedTask(s.tasks[e.p], e.a, e.topWaiter);
    GrantedTaskFacts(s.tasks[e.p], e.a, e.topWaiter);
    ChangeReturns(s, e.p, t');
    hide Change, SetPrio, SetParams, Boosted, NormalPrio, Put, Granted;
  }

  lemma ChangeReturns(s: State, p: Pid, t: Task)
    requires p in s.tasks && s.tasks[p].cpu in s.rqs && t.cpu in s.rqs
    ensures Change(s, p, t).ret == 0
  {
  }

  /**
   A successful request for SCHED_LOTTERY makes the task a lottery task of real-time priority
   0, whose normal priority is its nice value's and whose priority is that of the requested
   nice value or of its top waiter, the more urgent; unless the task is to keep its
   parameters, or is a lottery task already and asks for nothing else. A failure changes
   nothing.
   */
  lemma SetSchedulerEffect(s: State, e: Event)
    requires Inv(s) && e.SetsScheduler? && Enabled(s, e)
    ensures var o, p := Next(s, e), e.p;
            && (o.ret != 0 ==> o.s == s)
            && (o.ret == 0 ==>
                  Reparameterized(s, o.s, p) && Granted(s.tasks[p], o.s.tasks[p], e.a, e.topWaiter))
  {
    InvLists(s, e.p);
    assert CpusOk(s);
    hide Next, Inv, Reparameterized, Granted, Change, GrantedTask, SamePlace, ListsDistinct, OnNoList;
    var t' := GrantedTask(s.tasks[e.p], e.a, e.topWaiter);
    SetSchedulerForm(s, e);
    GrantedTaskFacts(s.tasks[e.p], e.a, e.topWaiter);
    ChangeLists(s, e.p, t');
    PutReparameterizes(s, e.p, t');
  }

  /** What priority inheritance makes of the task. */
  predicate BoostedTo(t: Task, t': Task, donor: Option<int>) {
    && t'.prio == (if donor.Some? && donor.value < t.normalPrio then donor.value else t.normalPrio)
    && t' == t.(class_ := t'.class_, prio := t'.prio)
    && (t.policy == SCHED_LOTTERY ==> t'.class_.Lottery?)
  }

  lemma BoostTask(s: State, p: Pid, donor: Option<int>) returns (t': Task, changed: bool)
    requires CpusOk(s) && Enabled(s, Boosts(p, donor)) && ClassOk(s.tasks[p])
    ensures p in s.tasks && s.tasks[p].cpu in s.rqs && SamePlace(s.tasks[p], t') && BoostedTo(s.tasks[p], t', donor)
    ensures s.tasks[p].class_.Lottery? ==> t'.class_.Lottery?
    ensures Next(s, Boosts(p, donor)) == if changed then Change(s, p, t') else Outcome(0, Put(s, p, t'), false)
  {
    hide Change;
    var t := s.tasks[p];
    var prio := Boosted(t.normalPrio, donor);
    changed := !(prio == t.prio && !DlPrio(prio));
    t' := if changed then SetPrio(t, prio) else t;
    assert Put(s, p, t) == s;
  }

  /**
   Priority inheritance gives the task the more urgent of its normal priority and its
   donor's; a lottery task stays in its class whatever that is.
   */
  lemma BoostEffect(s: State, p: Pid, donor: Option<int>)
    requires Inv(s) && Enabled(s, Boosts(p, donor))
    ensures var o := Next(s, Boosts(p, donor));
            o.ret == 0 && Reparameterized(s, o.s, p) && BoostedTo(s.tasks[p], o.s.tasks[p], donor)
  {
    assert CpusOk(s) && ClassOk(s.tasks[p]);
    hide Inv, Next, Change, BoostedTo, SamePlace, Reparameterized;
    var t', changed := BoostTask(s, p, donor);
    if changed { ChangeLists(s, p, t'); } else { PutReparameterizes(s, p, t'); }
  }

  /** What a nice value in range makes of the task; a policy that does not heed it keeps its priorities. */
  predicate Reniced(t: Task, t': Task, nice: int) {
    && t'.policy == t.policy && t'.class_ == t.class_ && t'.resetOnFork == t.resetOnFork
    && t'.staticPrio == (if MIN_NICE <= nice <= MAX_NICE then nice + DEFAULT_PRIO else t.staticPrio)
    && if DlPolicy(t.policy) || RtPolicy(t.policy) || t'.staticPrio == t.staticPrio
       then t'.normalPrio == t.normalPrio && t'.prio == t.prio
       else t'.normalPrio == t'.staticPrio && t'.prio == if RtPrio(t.prio) then t.prio else t'.staticPrio
  }

  lemma ReniceTask(s: State, p: Pid, nice: int) returns (t': Task, requeued: bool)
    requires CpusOk(s) && Enabled(s, Renices(p, nice))
    ensures p in s.tasks && s.tasks[p].cpu in s.rqs && SamePlace(s.tasks[p], t') && Reniced(s.tasks[p], t', nice)
    ensures Next(s, Renices(p, nice)) == Outcome(0, if requeued then Requeue(s, p, t') else Put(s, p, t'), false)
  {
    hide Requeue;
    var t := s.tasks[p];
    var normal := NormalPrio(t.policy, t.rtPriority, nice);
    requeued := false;
    t' := t;
    assert Put(s, p, t) == s;
    if nice + DEFAULT_PRIO != t.staticPrio && MIN_NICE <= nice <= MAX_NICE {
      if DlPolicy(t.policy) || RtPolicy(t.policy) {
        t' := t.(staticPrio := nice + DEFAULT_PRIO);
      } else {
        requeued := true;
        t' := t.(staticPrio := nice + DEFAULT_PRIO, normalPrio := normal,
                 prio := if RtPrio(t.prio) then t.prio else normal);
      }
    }
  }

  /**
   A nice value in range is stored as the static priority. A task of a policy that heeds it
   gets it as its normal priority, and as its priority unless that is a real-time one.
   */
  lemma ReniceEffect(s: State, p: Pid, nice: int)
    requires Inv(s) && Enabled(s, Renices(p, nice))
    ensures var o := Next(s, Renices(p, nice));
            o.ret == 0 && Reparameterized(s, o.s, p) && Reniced(s.tasks[p], o.s.tasks[p], nice)
  {
    InvLists(s, p);
    hide Inv, Next, Requeue, Requeued, Reniced, ListsDistinct, OnNoList;
    var t', requeued := ReniceTask(s, p, nice);
    if requeued { RequeueLists(s, p, t'); } else { PutReparameterizes(s, p, t'); }
  }

  /** A group move takes the task off its list and puts it back. */
  lemma GroupMoveEffect(s: State, p: Pid)
    requires Inv(s) && Enabled(s, MovesGroup(p))
    ensures var o := Next(s, MovesGroup(p)); o.ret == 0 && o.s.tasks == s.tasks && Requeued(s, o.s, p)
  {
    RequeueLists(s, p, s.tasks[p]);
    hide Inv, Requeue, Requeued;
  }
}
