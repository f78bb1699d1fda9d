/**
 The life of a core under core scheduling (kernel/sched/core.c, pick_next_task,
 sched_core_enqueue and sched_core_dequeue): runqueues change, siblings call the scheduler in
 any order, and picks made for the whole core are cached in core_pick and guarded by three
 sequence numbers.

 The counters are unbounded here: the code's are 32 bits wide, so the results hold as long
 as none of them wraps around between two uses.
 */
module CoreSeq {
  import opened Wrappers
  import opened CorePick
  import opened CoreEnds

  /**
   chosenFrom and chosen record the runqueues and the picks of the latest core-wide
   selection; the code does not keep them, and no step below reads them.
   */
  datatype Core = Core(
    sibs: seq<Sibling>, curr: seq<Task>, pick: seq<Option<Task>>, resched: seq<bool>, schedSeq: seq<nat>,
    cookie: nat, forceIdle: bool, taskSeq: nat, pickSeq: nat,
    chosenFrom: seq<Sibling>, chosen: seq<Task>)

  datatype Event =
    | Enqueue(cpu: nat, task: Task)
    | Dequeue(cpu: nat, pos: nat)
    | Rekey(cpu: nat, pos: nat, task: Task)
    | SetResched(cpu: nat)
    | Schedule(cpu: nat)

  /** The same task, whatever became of its urgency. */
  predicate Same(a: Task, b: Task) {
    a.id == b.id && a.cookie == b.cookie && IsIdle(a) == IsIdle(b)
  }

  predicate Shaped(c: Core) {
    && CoreOk(c.sibs)
    && |c.curr| == |c.pick| == |c.resched| == |c.schedSeq| == |c.chosen| == |c.chosenFrom| == |c.sibs|
  }

  // ---------------------------------------------------------------- the picking order

  /** A sequence read from position j on, wrapping around, as for_each_cpu_wrap does. */
  function From<T>(s: seq<T>, j: nat): seq<T>
    requires j <= |s|
  {
    s[j..] + s[..j]
  }

  /** The inverse: position x of the wrapped reading belongs to position x + j. */
  function BackFrom<T>(s: seq<T>, j: nat): seq<T>
    requires j <= |s|
  {
    s[|s| - j..] + s[..|s| - j]
  }

  // ---------------------------------------------------------------- pick_next_task

  /** The cached pick may be used. */
  predicate FastPath(c: Core, j: nat)
    requires Shaped(c) && j < |c.sibs|
  {
    c.pickSeq == c.taskSeq && c.pickSeq != c.schedSeq[j] && c.pick[j].Some?
  }

  function TakeCached(c: Core, j: nat): Core
    requires Shaped(c) && j < |c.sibs| && FastPath(c, j)
  {
    c.(schedSeq := c.schedSeq[j := c.pickSeq], curr := c.curr[j := c.pick[j].value], pick := c.pick[j := None],
       resched := c.resched[j := false])
  }

  /** No cookie in play on the core and none on what this sibling would run. */
  predicate Alone(c: Core, j: nat)
    requires Shaped(c) && j < |c.sibs|
  {
    c.cookie == 0 && !c.forceIdle && Top(c.sibs[j]).cookie == 0
  }

  function PickAlone(c: Core, j: nat): Core
    requires Shaped(c) && j < |c.sibs|
  {
    c.(taskSeq := c.taskSeq + 1, cookie := 0, forceIdle := false, curr := c.curr[j := Top(c.sibs[j])],
       pick := c.pick[j := None], resched := c.resched[j := false])
  }

  predicate SelFits(c: Core, sel: Sel) {
    |sel.picks| == |c.sibs| && forall i | 0 <= i < |sel.picks| :: sel.picks[i].Some?
  }

  /** The picks in the order of the siblings. */
  function Chosen(c: Core, j: nat, sel: Sel): seq<Task>
    requires j < |c.sibs| && SelFits(c, sel)
  {
    var b := BackFrom(sel.picks, j);
    seq(|c.sibs|, i requires 0 <= i < |c.sibs| => b[i].value)
  }

  /** After a core-wide selection: sibling j runs its pick, the others are told to. */
  function Apply(c: Core, j: nat, sel: Sel): Core
    requires Shaped(c) && j < |c.sibs| && SelFits(c, sel)
  {
    var n, p := |c.sibs|, Chosen(c, j, sel);
    Core(c.sibs, c.curr[j := p[j]],
         seq(n, i requires 0 <= i < n => if i == j || Same(c.curr[i], p[i]) then None else Some(p[i])),
         seq(n, i requires 0 <= i < n => i != j && (c.resched[i] || !Same(c.curr[i], p[i]))),
         c.schedSeq[j := c.taskSeq + 1],
         sel.cookie, sel.forceIdle, c.taskSeq + 1, c.taskSeq + 1, c.sibs, p)
  }

  /** pick_next_task on sibling j past the test for a cached pick: a pick for itself, or for the whole core. */
  ghost predicate PickedAnew(c: Core, j: nat, c': Core)
    requires Shaped(c) && j < |c.sibs|
  {
    if Alone(c, j) then c' == PickAlone(c, j)
    else exists sel :: IsOutcome(From(c.sibs, j), sel) && SelFits(c, sel) && c' == Apply(c, j, sel)
  }

  /**
   pick_next_task on sibling j, as a relation to the state it leaves. A new pick may be made
   although a cached one is there: balancing comes between the test and the pick, and may
   drop the lock, so that a sibling can make its own selection meanwhile.
   */
  ghost predicate Scheduled(c: Core, j: nat, c': Core)
    requires Shaped(c) && j < |c.sibs|
  {
    (FastPath(c, j) && c' == TakeCached(c, j)) || PickedAnew(c, j, c')
  }

  // ---------------------------------------------------------------- runs

  function WithTasks(c: Core, j: nat, ts: seq<Task>): Core
    requires j < |c.sibs|
  {
    c.(sibs := c.sibs[j := c.sibs[j].(tasks := ts)])
  }

  ghost predicate Next(c: Core, e: Event, c': Core)
    requires Shaped(c)
  {
    && e.cpu < |c.sibs|
    && var ts := c.sibs[e.cpu].tasks;
       match e
       case Enqueue(j, t) => TaskOk(t) && c' == WithTasks(c, j, ts + [t]).(taskSeq := c.taskSeq + 1)
       case Dequeue(j, x) => x < |ts| && c' == WithTasks(c, j, ts[..x] + ts[x + 1..]).(taskSeq := c.taskSeq + 1)
       case Rekey(j, x, t) => x < |ts| && TaskOk(t) && Same(t, ts[x]) && c' == WithTasks(c, j, ts[x := t])
       case SetResched(j) => c' == c.(resched := c.resched[j := true])
       case Schedule(j) => Scheduled(c, j, c')
  }

  /** A core on which no selection has been made yet: everything idle, no cookie. */
  predicate Initial(c: Core) {
    && Shaped(c) && c.cookie == 0 && !c.forceIdle && c.taskSeq == c.pickSeq == 0 && c.chosenFrom == c.sibs
    && forall j | 0 <= j < |c.sibs| ::
         c.pick[j].None? && c.schedSeq[j] == 0 && c.curr[j] == c.sibs[j].idle == c.chosen[j] && !c.resched[j]
  }

  // ---------------------------------------------------------------- the invariant

  /** What sibling j runs or has been told to run. */
  function Told(c: Core, j: nat): Task
    requires Shaped(c) && j < |c.sibs|
  {
    if c.pick[j].Some? then c.pick[j].value else c.curr[j]
  }

  predicate FitsCore(c: Core, t: Task) {
    IsIdle(t) || t.cookie == c.cookie
  }

  predicate SeqsOk(c: Core)
    requires Shaped(c)
  {
    && c.pickSeq <= c.taskSeq
    && forall j | 0 <= j < |c.sibs| ::
         c.schedSeq[j] <= c.pickSeq && (c.pick[j].Some? ==> c.schedSeq[j] < c.pickSeq && c.resched[j])
  }

  /** What the siblings run or will run fits the core's cookie. */
  predicate ToldFit(c: Core)
    requires Shaped(c)
  {
    forall j | 0 <= j < |c.sibs| :: FitsCore(c, Told(c, j))
  }

  predicate SameQueue(a: Sibling, b: Sibling) {
    a.idle == b.idle && |a.tasks| == |b.tasks| && forall x | 0 <= x < |a.tasks| :: Same(a.tasks[x], b.tasks[x])
  }

  predicate FromQueue(sib: Sibling, t: Task) {
    Same(t, sib.idle) || exists x :: 0 <= x < |sib.tasks| && Same(t, sib.tasks[x])
  }

  /** The latest selection chose from the queues it saw. */
  predicate ChosenOk(c: Core)
    requires Shaped(c)
  {
    && (forall j | 0 <= j < |c.sibs| :: FromQueue(c.chosenFrom[j], c.chosen[j]))
    && (forall j | 0 <= j < |c.sibs| && c.pick[j].Some? :: Same(c.pick[j].value, c.chosen[j]))
  }

  /** As long as the counters agree nothing was queued or dequeued, and the selection stands. */
  predicate Current(c: Core)
    requires Shaped(c)
  {
    c.pickSeq == c.taskSeq ==>
      forall j | 0 <= j < |c.sibs| :: SameQueue(c.sibs[j], c.chosenFrom[j]) && Same(Told(c, j), c.chosen[j])
  }

  predicate Inv(c: Core) {
    Shaped(c) && SeqsOk(c) && ToldFit(c) && ChosenOk(c) && Current(c)
  }

  lemma InitialInv(c: Core)
    requires Initial(c)
    ensures Inv(c)
  {
    assert forall j | 0 <= j < |c.sibs| :: SiblingOk(c.sibs[j]);
  }

  // ---------------------------------------------------------------- each step

  lemma QueueChangeKeeps(c: Core, e: Event, c': Core)
    requires Inv(c) && Next(c, e, c') && (e.Enqueue? || e.Dequeue?)
    ensures Inv(c')
  {
    var ts, ts' := c.sibs[e.cpu].tasks, c'.sibs[e.cpu].tasks;
    assert SiblingOk(c.sibs[e.cpu]);
    assert forall t | t in ts' :: t in ts || (e.Enqueue? && t == e.task);
    assert SiblingOk(c'.sibs[e.cpu]);
    assert forall j | 0 <= j < |c.sibs| && j != e.cpu :: c'.sibs[j] == c.sibs[j];
    assert forall j | 0 <= j < |c.sibs| :: SiblingOk(c'.sibs[j]);
    assert forall j | 0 <= j < |c.sibs| :: Told(c', j) == Told(c, j);
  }

  lemma RekeyKeeps(c: Core, e: Event, c': Core)
    requires Inv(c) && Next(c, e, c') && e.Rekey?
    ensures Inv(c')
  {
    var ts, ts' := c.sibs[e.cpu].tasks, c'.sibs[e.cpu].tasks;
    assert SiblingOk(c.sibs[e.cpu]);
    assert forall t | t in ts' :: t in ts || t == e.task;
    assert SiblingOk(c'.sibs[e.cpu]);
    assert forall j | 0 <= j < |c.sibs| && j != e.cpu :: c'.sibs[j] == c.sibs[j];
    assert forall j | 0 <= j < |c.sibs| :: SiblingOk(c'.sibs[j]);
    assert forall j | 0 <= j < |c.sibs| :: Told(c', j) == Told(c, j);
    assert SameQueue(c.sibs[e.cpu], c'.sibs[e.cpu]);
    assert forall j | 0 <= j < |c.sibs| && SameQueue(c.sibs[j], c.chosenFrom[j]) ::
        SameQueue(c'.sibs[j], c.chosenFrom[j]);
  }

  lemma TakeCachedKeeps(c: Core, j: nat)
    requires Inv(c) && j < |c.sibs| && FastPath(c, j)
    ensures Inv(TakeCached(c, j))
  {
    var c' := TakeCached(c, j);
    assert forall i | 0 <= i < |c.sibs| :: Told(c', i) == Told(c, i);
  }

  lemma PickAloneKeeps(c: Core, j: nat)
    requires Inv(c) && j < |c.sibs| && Alone(c, j)
    ensures Inv(PickAlone(c, j))
  {
    var c' := PickAlone(c, j);
    assert forall i | 0 <= i < |c.sibs| && i != j :: Told(c', i) == Told(c, i);
    assert Told(c', j) == Top(c.sibs[j]);
  }

  /** Each sibling's pick, found back from the picking order. */
  lemma ChosenAt(c: Core, j: nat, sel: Sel, i: nat)
    requires Shaped(c) && j < |c.sibs| && i < |c.sibs| && SelFits(c, sel)
    ensures var x := if i < j then |c.sibs| - j + i else i - j;
            Chosen(c, j, sel)[i] == sel.picks[x].value && c.sibs[i] == From(c.sibs, j)[x]
  {
  }

  lemma FromOk(sibs: seq<Sibling>, j: nat)
    requires CoreOk(sibs) && j < |sibs|
    ensures CoreOk(From(sibs, j)) && |From(sibs, j)| == |sibs|
  {
    var s, n := From(sibs, j), |sibs|;
    forall x | 0 <= x < n ensures s[x] == sibs[if x < n - j then x + j else x - (n - j)] { }
    hide SiblingOk;
  }

  /** The chosen tasks come from the siblings' queues and fit the core's new cookie. */
  lemma ChosenFacts(c: Core, j: nat, sel: Sel)
    requires Shaped(c) && j < |c.sibs| && Selected(From(c.sibs, j), sel)
    ensures SelFits(c, sel)
    ensures var p := Chosen(c, j, sel);
            forall i | 0 <= i < |c.sibs| :: FromQueue(c.sibs[i], p[i]) && (IsIdle(p[i]) || p[i].cookie == sel.cookie)
  {
    FromOk(c.sibs, j);
    var s, n, p := From(c.sibs, j), |c.sibs|, Chosen(c, j, sel);
    hide Chosen, From, CoreOk;
    forall i | 0 <= i < n ensures FromQueue(c.sibs[i], p[i]) && (IsIdle(p[i]) || p[i].cookie == sel.cookie) {
      ChosenAt(c, j, sel, i);
      var x := if i < j then n - j + i else i - j;
      assert sel.picks[x].value in s[x].tasks || sel.picks[x].value == s[x].idle;
      if p[i] in c.sibs[i].tasks {
        var y :| 0 <= y < |c.sibs[i].tasks| && c.sibs[i].tasks[y] == p[i];
        assert Same(p[i], c.sibs[i].tasks[y]);
      }
    }
  }

  lemma ApplyKeeps(c: Core, j: nat, sel: Sel)
    requires Inv(c) && j < |c.sibs| && Selected(From(c.sibs, j), sel)
    ensures SelFits(c, sel) && Inv(Apply(c, j, sel))
  {
    ChosenFacts(c, j, sel);
    var c', p := Apply(c, j, sel), Chosen(c, j, sel);
    assert forall i | 0 <= i < |c.sibs| :: Same(Told(c', i), p[i]);
  }

  lemma ScheduleKeeps(c: Core, j: nat, c': Core)
    requires Inv(c) && j < |c.sibs| && Scheduled(c, j, c')
    ensures Inv(c')
  {
    if !PickedAnew(c, j, c') {
      TakeCachedKeeps(c, j);
    } else if Alone(c, j) {
      PickAloneKeeps(c, j);
    } else {
      var s := From(c.sibs, j);
      var sel :| IsOutcome(s, sel) && SelFits(c, sel) && c' == Apply(c, j, sel);
      FromOk(c.sibs, j);
      OutcomeServes(s, sel);
      ApplyKeeps(c, j, sel);
    }
  }

  /** Every step keeps the invariant. */
  lemma StepKeeps(c: Core, e: Event, c': Core)
    requires Inv(c) && Next(c, e, c')
    ensures Inv(c')
  {
    hide SeqsOk, ToldFit, ChosenOk, Current, CoreOk, Scheduled;
    match e
    case Enqueue(_, _) => QueueChangeKeeps(c, e, c');
    case Dequeue(_, _) => QueueChangeKeeps(c, e, c');
    case Rekey(_, _, _) => RekeyKeeps(c, e, c');
    case SetResched(j) => SetReschedKeeps(c, j);
    case Schedule(j) => ScheduleKeeps(c, j, c');
  }

  lemma SetReschedKeeps(c: Core, j: nat)
    requires Inv(c) && j < |c.sibs|
    ensures Inv(c.(resched := c.resched[j := true]))
  {
    var c' := c.(resched := c.resched[j := true]);
    assert forall i | 0 <= i < |c.sibs| :: Told(c', i) == Told(c, i);
  }

  /** A run: consecutive states are linked by the events. */
  ghost predicate Run(cs: seq<Core>, es: seq<Event>) {
    && |cs| == |es| + 1 && Initial(cs[0])
    && forall i | 0 <= i < |es| :: Shaped(cs[i]) && Next(cs[i], es[i], cs[i + 1])
  }

  lemma {:induction false} RunKeeps(cs: seq<Core>, es: seq<Event>, i: nat)
    requires Run(cs, es) && i < |cs|
    ensures Inv(cs[i])
  {
    if i == 0 { InitialInv(cs[0]); }
    else {
      RunKeeps(cs, es, i - 1);
      StepKeeps(cs[i - 1], es[i - 1], cs[i]);
    }
  }

  // ---------------------------------------------------------------- what each event does

  /** t is what the sibling runs if left to itself: one of its tasks, idle only if it has none, nothing more urgent. */
  predicate RunsBest(sib: Sibling, t: Task) {
    && (if sib.tasks == [] then t == sib.idle else t in sib.tasks)
    && forall u | u in sib.tasks :: !MoreUrgent(u, t)
  }

  lemma TopRunsBest(sib: Sibling)
    requires SiblingOk(sib)
    ensures RunsBest(sib, Top(sib)) && FromQueue(sib, Top(sib))
  {
    TopIsMostUrgent(sib);
    if sib.tasks != [] {
      var x :| 0 <= x < |sib.tasks| && sib.tasks[x] == Top(sib);
      assert Same(Top(sib), sib.tasks[x]);
    }
    hide Top;
  }

  /** Exactly one runqueue has changed, and runs and picks are as they were. */
  predicate OnlyQueue(c: Core, c': Core, j: nat) {
    && c'.curr == c.curr && c'.pick == c.pick && c'.resched == c.resched && |c'.sibs| == |c.sibs|
    && forall i | 0 <= i < |c.sibs| && i != j :: c'.sibs[i] == c.sibs[i]
  }

  lemma TakeOut(ts: seq<Task>, x: nat)
    requires x < |ts|
    ensures multiset(ts) == multiset(ts[..x] + ts[x + 1..]) + multiset{ts[x]}
  {
    assert ts == ts[..x] + [ts[x]] + ts[x + 1..];
  }

  /** Enqueue and dequeue change one queue by one task. */
  lemma QueueEffect(c: Core, e: Event, c': Core)
    requires Inv(c) && Next(c, e, c') && (e.Enqueue? || e.Dequeue?)
    ensures e.cpu < |c.sibs| && OnlyQueue(c, c', e.cpu) && c'.sibs[e.cpu].idle == c.sibs[e.cpu].idle
    ensures var ts, ts' := multiset(c.sibs[e.cpu].tasks), multiset(c'.sibs[e.cpu].tasks);
            if e.Enqueue? then ts' == ts + multiset{e.task}
            else e.pos < |c.sibs[e.cpu].tasks| && ts == ts' + multiset{c.sibs[e.cpu].tasks[e.pos]}
  {
    if e.Dequeue? { TakeOut(c.sibs[e.cpu].tasks, e.pos); }
    hide CoreOk, SeqsOk, ToldFit, ChosenOk, Current;
  }

  /**
   A sibling that schedules runs its cached pick, or the best of its own tasks, which then
   has no cookie, or its share of a new core-wide selection. It has no reschedule pending
   afterwards; the others keep what they run, and are asked to reschedule only by a
   selection, exactly if they do not run their picks already. The queues stay.
   */
  lemma ScheduleEffect(c: Core, j: nat, c': Core)
    requires Inv(c) && Next(c, Schedule(j), c')
    ensures Shaped(c') && j < |c.sibs| && c'.sibs == c.sibs && !c'.resched[j] && c'.pick[j].None?
    ensures forall i | 0 <= i < |c.sibs| && i != j :: c'.curr[i] == c.curr[i]
    ensures if c'.taskSeq == c.taskSeq then c.pick[j] == Some(c'.curr[j]) && c.pickSeq == c.taskSeq
            else if c'.pickSeq == c.pickSeq then RunsBest(c.sibs[j], c'.curr[j]) && c'.curr[j].cookie == 0
            else c'.curr[j] == c'.chosen[j] && FromQueue(c.sibs[j], c'.curr[j])
    ensures forall i | 0 <= i < |c.sibs| && i != j ::
              if c'.pickSeq == c.pickSeq then c'.resched[i] == c.resched[i] && c'.pick[i] == c.pick[i]
              else && c'.resched[i] == (c.resched[i] || !Same(c.curr[i], c'.chosen[i]))
                   && c'.pick[i] == (if Same(c.curr[i], c'.chosen[i]) then None else Some(c'.chosen[i]))
  {
    ScheduleKeeps(c, j, c');
    CoreSibling(c.sibs, j);
    TopRunsBest(c.sibs[j]);
    assert c'.pickSeq != c.pickSeq ==> c'.chosenFrom == c.sibs;
    hide Top, CoreOk, IsOutcome, SeqsOk, ToldFit, Current, FromQueue, Same, Chosen;
  }

  /** Some sibling with work was chosen to idle. */
  ghost predicate SomeForced(sibs: seq<Sibling>, chosen: seq<Task>)
    requires |chosen| == |sibs|
  {
    exists i :: 0 <= i < |sibs| && IsIdle(chosen[i]) && sibs[i].tasks != []
  }

  /** Forced idleness in visiting order is forced idleness in the siblings' own order. */
  lemma ForcedAt(c: Core, j: nat, sel: Sel, i: nat)
    requires Shaped(c) && j < |c.sibs| && i < |c.sibs| && SelFits(c, sel)
    ensures var x := if i < j then |c.sibs| - j + i else i - j;
            Forced(From(c.sibs, j)[x], sel.picks[x]) <==> IsIdle(Chosen(c, j, sel)[i]) && c.sibs[i].tasks != []
  {
    ChosenAt(c, j, sel, i);
    hide Chosen, From, CoreOk;
  }

  /** Some slot of the visiting order is forced idle. */
  ghost predicate SlotForced(sibs: seq<Sibling>, picks: seq<Option<Task>>)
    requires |picks| == |sibs|
  {
    exists x :: 0 <= x < |sibs| && Forced(sibs[x], picks[x])
  }

  lemma ForceMeans(sibs: seq<Sibling>, sel: Sel)
    requires Selected(sibs, sel)
    ensures |sel.picks| == |sibs| && (sel.forceIdle <==> SlotForced(sibs, sel.picks))
  {
    hide CookieMatch, Justified, MaxFrom, Forced;
  }

  lemma SlotsForced(c: Core, j: nat, sel: Sel)
    requires Shaped(c) && j < |c.sibs| && SelFits(c, sel)
    ensures SlotForced(From(c.sibs, j), sel.picks) ==> SomeForced(c.sibs, Chosen(c, j, sel))
  {
    var s, n := From(c.sibs, j), |c.sibs|;
    assert |s| == n;
    hide Chosen, Shaped, Forced, From;
    if SlotForced(s, sel.picks) {
      var x :| 0 <= x < n && Forced(s[x], sel.picks[x]);
      ForcedAt(c, j, sel, if x < n - j then x + j else x - (n - j));
    }
  }

  lemma SomeoneForced(c: Core, j: nat, sel: Sel)
    requires Shaped(c) && j < |c.sibs| && SelFits(c, sel)
    ensures SomeForced(c.sibs, Chosen(c, j, sel)) ==> SlotForced(From(c.sibs, j), sel.picks)
  {
    var s, n := From(c.sibs, j), |c.sibs|;
    assert |s| == n;
    hide Chosen, Shaped, Forced, From;
    if SomeForced(c.sibs, Chosen(c, j, sel)) {
      var i :| 0 <= i < n && IsIdle(Chosen(c, j, sel)[i]) && c.sibs[i].tasks != [];
      ForcedAt(c, j, sel, i);
    }
  }

  lemma ForcedBack(c: Core, j: nat, sel: Sel)
    requires Shaped(c) && j < |c.sibs| && Selected(From(c.sibs, j), sel) && SelFits(c, sel)
    ensures sel.forceIdle <==> SomeForced(c.sibs, Chosen(c, j, sel))
  {
    hide Selected, SlotForced, SomeForced, Chosen, CoreOk;
    ForceMeans(From(c.sibs, j), sel);
    SlotsForced(c, j, sel);
    SomeoneForced(c, j, sel);
  }

  /**
   Past the cached pick a sibling picks for itself exactly if the core has no cookie, nobody
   is forced idle and its best task has no cookie either; otherwise for the whole core, whose
   cookie all chosen tasks then have, and which notes whether someone is forced idle.
   */
  lemma SelectionEffect(c: Core, j: nat, c': Core)
    requires Inv(c) && Next(c, Schedule(j), c') && c'.taskSeq != c.taskSeq
    ensures j < |c.sibs| && |c'.chosen| == |c.sibs|
    ensures c'.pickSeq == c.pickSeq ==>
              c.cookie == 0 && !c.forceIdle && c'.cookie == 0 && !c'.forceIdle && c'.curr[j].cookie == 0
    ensures c'.pickSeq != c.pickSeq ==>
              && !(c.cookie == 0 && !c.forceIdle && Top(c.sibs[j]).cookie == 0)
              && (c'.forceIdle <==> SomeForced(c.sibs, c'.chosen))
              && forall i | 0 <= i < |c.sibs| :: IsIdle(c'.chosen[i]) || c'.chosen[i].cookie == c'.cookie
  {
    if c'.pickSeq != c.pickSeq {
      var s := From(c.sibs, j);
      var sel :| IsOutcome(s, sel) && SelFits(c, sel) && c' == Apply(c, j, sel);
      FromOk(c.sibs, j);
      OutcomeServes(s, sel);
      ChosenFacts(c, j, sel);
      ForcedBack(c, j, sel);
    }
    hide Top, CoreOk, IsOutcome, SeqsOk, ToldFit, Current, FromQueue, Same, Chosen, Selected, SomeForced, RunsBest;
  }

  // ---------------------------------------------------------------- what every run guarantees

  /**
   At every moment of every run, two siblings of which neither has a reschedule pending run
   tasks that may share the core.
   */
  lemma SettledSiblingsMatch(cs: seq<Core>, es: seq<Event>, i: nat, a: nat, b: nat)
    requires Run(cs, es) && i < |cs| && Shaped(cs[i]) && a < |cs[i].sibs| && b < |cs[i].sibs|
    requires !cs[i].resched[a] && !cs[i].resched[b]
    ensures CookieMatch(cs[i].curr[a], cs[i].curr[b])
  {
    RunKeeps(cs, es, i);
    var c := cs[i];
    assert Told(c, a) == c.curr[a] && Told(c, b) == c.curr[b];
    assert FitsCore(c, c.curr[a]) && FitsCore(c, c.curr[b]);
  }

  /**
   A cached pick is never stale: whenever it is used, it is the pick of the latest core-wide
   selection, no sibling's runqueue has gained or lost a task since, so that it is still on
   its runqueue, and every other sibling runs or is about to run that selection's pick too.
   */
  lemma CachedPickIsFresh(cs: seq<Core>, es: seq<Event>, i: nat, j: nat)
    requires Run(cs, es) && i < |cs| && Shaped(cs[i]) && j < |cs[i].sibs| && FastPath(cs[i], j)
    ensures Same(cs[i].pick[j].value, cs[i].chosen[j]) && FromQueue(cs[i].sibs[j], cs[i].pick[j].value)
    ensures forall k | 0 <= k < |cs[i].sibs| ::
              SameQueue(cs[i].sibs[k], cs[i].chosenFrom[k]) && Same(Told(cs[i], k), cs[i].chosen[k])
  {
    RunKeeps(cs, es, i);
    var c := cs[i];
    var sib, was := c.sibs[j], c.chosenFrom[j];
    assert SameQueue(sib, was) && FromQueue(was, c.chosen[j]);
    if !Same(c.chosen[j], was.idle) {
      var x :| 0 <= x < |was.tasks| && Same(c.chosen[j], was.tasks[x]);
      assert Same(c.pick[j].value, sib.tasks[x]);
    }
  }

  /** The step is a core-wide selection by sibling j. */
  ghost predicate Selects(c: Core, j: nat, c': Core)
    requires Shaped(c)
  {
    && j < |c.sibs| && c'.chosenFrom == c.sibs && c'.pickSeq == c'.taskSeq == c.taskSeq + 1
    && exists sel :: IsOutcome(From(c.sibs, j), sel) && SelFits(c, sel) && c'.chosen == Chosen(c, j, sel)
  }

  /** The history variables mean what they say: pick_seq and they change only in a core-wide selection. */
  lemma HistoryIsLatest(c: Core, e: Event, c': Core)
    requires Inv(c) && Next(c, e, c')
    ensures if c'.pickSeq == c.pickSeq then c'.chosenFrom == c.chosenFrom && c'.chosen == c.chosen
            else e.Schedule? && Selects(c, e.cpu, c')
    ensures c'.taskSeq >= c.taskSeq && (e.Enqueue? || e.Dequeue? ==> c'.taskSeq > c.taskSeq)
  {
  }

  /** A sibling can make a new pick exactly when it needs none for the core or its view of the core holds no trap. */
  lemma PickPossibleExactly(c: Core, j: nat)
    requires Shaped(c) && j < |c.sibs|
    ensures (exists c' :: PickedAnew(c, j, c')) <==> Alone(c, j) || !Endless(From(c.sibs, j))
  {
    var s := From(c.sibs, j);
    FromOk(c.sibs, j);
    hide Endless, Selected, Iter, Apply, CoreOk, From;
    if Alone(c, j) {
      assert PickedAnew(c, j, PickAlone(c, j));
    } else if !Endless(s) {
      OutcomeSelected(s);
      var sel :| IsOutcome(s, sel) && Selected(s, sel);
      assert SelFits(c, sel);
      assert PickedAnew(c, j, Apply(c, j, sel));
    } else if c' :| PickedAnew(c, j, c') {
      var sel :| IsOutcome(s, sel) && SelFits(c, sel) && c' == Apply(c, j, sel);
      OutcomeNotEndless(s, sel);
    }
  }

  lemma RunStep(cs: seq<Core>, es: seq<Event>, k: nat)
    requires Run(cs, es) && k < |es|
    ensures Shaped(cs[k]) && cs[k + 1].taskSeq >= cs[k].taskSeq
    ensures es[k].Enqueue? || es[k].Dequeue? ==> cs[k + 1].taskSeq > cs[k].taskSeq
    ensures if cs[k + 1].pickSeq == cs[k].pickSeq
            then cs[k + 1].chosenFrom == cs[k].chosenFrom && cs[k + 1].chosen == cs[k].chosen
            else es[k].Schedule? && Selects(cs[k], es[k].cpu, cs[k + 1]) && cs[k + 1].chosenFrom == cs[k].sibs
  {
    hide Next, Inv;
    RunKeeps(cs, es, k);
    HistoryIsLatest(cs[k], es[k], cs[k + 1]);
  }

  lemma RunStart(cs: seq<Core>, es: seq<Event>)
    requires Run(cs, es)
    ensures |cs| == |es| + 1 && cs[0].pickSeq == 0
  {
  }

  lemma {:induction false} TaskSeqGrows(cs: seq<Core>, es: seq<Event>, k: nat, i: nat)
    requires Run(cs, es) && k <= i < |cs|
    ensures cs[k].taskSeq <= cs[i].taskSeq
  {
    hide Next, Initial, Selects;
    if k < i {
      TaskSeqGrows(cs, es, k, i - 1);
      RunStep(cs, es, i - 1);
    }
  }

  /** Where the selection recorded at i was made. */
  lemma {:induction false} LatestSelection(cs: seq<Core>, es: seq<Event>, i: nat) returns (i0: nat)
    requires Run(cs, es) && i < |cs| && cs[i].pickSeq > 0
    ensures i0 < i && es[i0].Schedule? && Shaped(cs[i0]) && Selects(cs[i0], es[i0].cpu, cs[i0 + 1])
    ensures cs[i].chosenFrom == cs[i0].sibs && cs[i].chosen == cs[i0 + 1].chosen
    ensures forall k | i0 < k <= i :: cs[k].pickSeq == cs[i0 + 1].pickSeq
  {
    hide Run, Selects, Shaped;
    RunStart(cs, es);
    RunStep(cs, es, i - 1);
    if cs[i].pickSeq == cs[i - 1].pickSeq {
      i0 := LatestSelection(cs, es, i - 1);
    } else {
      i0 := i - 1;
    }
  }

  /**
   In terms of events: when a cached pick is used, a core-wide selection chose it, and since
   then no task has been enqueued or dequeued anywhere on the core and no other core-wide
   selection has been made.
   */
  lemma NoQueueEventSince(cs: seq<Core>, es: seq<Event>, i: nat, j: nat) returns (i0: nat)
    requires Run(cs, es) && i < |cs| && Shaped(cs[i]) && j < |cs[i].sibs| && FastPath(cs[i], j)
    ensures i0 < i && es[i0].Schedule? && Shaped(cs[i0]) && Selects(cs[i0], es[i0].cpu, cs[i0 + 1])
    ensures cs[i].chosen == cs[i0 + 1].chosen && Same(cs[i].pick[j].value, cs[i].chosen[j])
    ensures forall k | i0 < k < i :: !es[k].Enqueue? && !es[k].Dequeue? && cs[k + 1].pickSeq == cs[k].pickSeq
  {
    RunKeeps(cs, es, i);
    assert cs[i].pickSeq > 0;
    CachedPickIsFresh(cs, es, i, j);
    hide Next, Initial, SameQueue, FromQueue, Same, Inv;
    i0 := LatestSelection(cs, es, i);
    forall k | i0 < k < i ensures !es[k].Enqueue? && !es[k].Dequeue? && cs[k + 1].pickSeq == cs[k].pickSeq {
      RunStep(cs, es, k);
      TaskSeqGrows(cs, es, i0 + 1, k);
      TaskSeqGrows(cs, es, k + 1, i);
    }
  }

  /** The test on sched_seq never decides: it holds wherever the other two parts do. */
  lemma SchedSeqIsRedundant(cs: seq<Core>, es: seq<Event>, i: nat, j: nat)
    requires Run(cs, es) && i < |cs| && Shaped(cs[i]) && j < |cs[i].sibs|
    ensures FastPath(cs[i], j) <==> cs[i].pickSeq == cs[i].taskSeq && cs[i].pick[j].Some?
  {
    RunKeeps(cs, es, i);
  }
}
