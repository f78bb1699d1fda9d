/**
 Core-wide task selection (kernel/sched/core.c, prio_less, pick_task and the selection
 part of pick_next_task under CONFIG_SCHED_CORE): pick a task for every sibling of a core
 so that all picks may share the core, restarting whenever a more urgent task with another
 cookie turns up.

 The siblings are listed in the order for_each_cpu_wrap visits them, the picking CPU first.
 */
module CorePick {
  import opened Wrappers

  /** Scheduling classes in the order for_each_class visits them. */
  const STOP := 0
  const DL := 1
  const RT := 2
  const FAIR := 3
  const IDLE := 4

  const MAX_RT_PRIO := 100

  /** fairKey stands for what cfs_prio_less compares: it grows with urgency. */
  datatype Task = Task(id: nat, class_: nat, prio: int, deadline: int, fairKey: int, cookie: nat)

  /** One runqueue of the core: its runnable tasks and its idle task. */
  datatype Sibling = Sibling(tasks: seq<Task>, idle: Task)

  predicate TaskOk(t: Task) {
    || t.class_ == STOP
    || (t.class_ == DL && t.prio == -1)
    || (t.class_ == RT && 0 <= t.prio < MAX_RT_PRIO)
    || (t.class_ == FAIR && MAX_RT_PRIO <= t.prio)
  }

  predicate SiblingOk(s: Sibling) {
    && s.idle.class_ == IDLE && s.idle.prio >= MAX_RT_PRIO && s.idle.cookie == 0
    && forall t | t in s.tasks :: TaskOk(t)
  }

  predicate CoreOk(sibs: seq<Sibling>) {
    |sibs| > 0 && forall j | 0 <= j < |sibs| :: SiblingOk(sibs[j])
  }

  predicate IsIdle(t: Task) {
    t.class_ == IDLE
  }

  /** __task_prio */
  function KernelPrio(t: Task): int {
    if t.class_ == STOP then -2
    else if t.prio < MAX_RT_PRIO then t.prio
    else if t.class_ == IDLE then 140
    else 120
  }

  /** prio_less. Equal deadlines make it true both ways. */
  predicate PrioLess(a: Task, b: Task) {
    var pa, pb := KernelPrio(a), KernelPrio(b);
    if -pa < -pb then true
    else if -pb < -pa then false
    else if pa == -1 then !(a.deadline < b.deadline)
    else if pa == 120 then a.fairKey < b.fairKey
    else false
  }

  predicate CookieMatch(a: Task, b: Task) {
    IsIdle(a) || IsIdle(b) || a.cookie == b.cookie
  }

  // ---------------------------------------------------------------- urgency

  /** The strict order behind prio_less, deadline ties left undecided. */
  predicate Below(a: Task, b: Task) {
    var pa, pb := KernelPrio(a), KernelPrio(b);
    || pa > pb
    || (pa == pb == -1 && a.deadline > b.deadline)
    || (pa == pb == 120 && a.fairKey < b.fairKey)
  }

  /** How a tie in urgency is broken by having a cookie; it goes the other way for deadline tasks. */
  function TieRank(t: Task): nat {
    if (KernelPrio(t) == -1) == (t.cookie == 0) then 1 else 0
  }

  /** What every restart raises: urgency first, then the tie rank. */
  predicate KeyLess(a: Task, b: Task) {
    Below(a, b) || (!Below(b, a) && TieRank(a) < TieRank(b))
  }

  lemma BelowTransitive(a: Task, b: Task, c: Task)
    ensures Below(a, b) && !Below(c, b) ==> Below(a, c)
    ensures !Below(b, a) && Below(b, c) ==> Below(a, c)
    ensures !Below(b, a) && !Below(c, b) ==> !Below(c, a)
  {
  }

  lemma KeyLessTransitive(a: Task, b: Task, c: Task)
    requires KeyLess(a, b) && KeyLess(b, c)
    ensures KeyLess(a, c)
  {
    BelowTransitive(a, b, c);
    BelowTransitive(c, b, a);
  }

  /** What urgency means: the class, then the real-time priority, the deadline or the fair key. */
  predicate MoreUrgent(a: Task, b: Task) {
    || a.class_ < b.class_
    || (a.class_ == b.class_ == DL && a.deadline < b.deadline)
    || (a.class_ == b.class_ == RT && a.prio < b.prio)
    || (a.class_ == b.class_ == FAIR && a.fairKey > b.fairKey)
  }

  /** A task as the classes keep it, or an idle task. */
  predicate Proper(t: Task) {
    TaskOk(t) || (t.class_ == IDLE && t.prio >= MAX_RT_PRIO)
  }

  /** The kernel's priorities order tasks by urgency. */
  lemma BelowIsUrgency(a: Task, b: Task)
    requires Proper(a) && Proper(b)
    ensures Below(a, b) <==> MoreUrgent(b, a)
  {
  }

  /** prio_less is urgency too, but for deadline tasks it also holds when they tie. */
  lemma PrioLessExactly(a: Task, b: Task)
    requires Proper(a) && Proper(b)
    ensures PrioLess(a, b) <==>
              if a.class_ == b.class_ == DL then !(a.deadline < b.deadline) else MoreUrgent(b, a)
    ensures a.class_ == b.class_ == RT ==> (PrioLess(a, b) <==> a.prio > b.prio)
    ensures a.class_ < b.class_ ==> PrioLess(b, a) && !PrioLess(a, b)
  {
  }

  // ---------------------------------------------------------------- the classes' answers

  /** A most urgent task, the first of those that tie. */
  function Best(ts: seq<Task>): Task
    requires |ts| > 0
  {
    if |ts| == 1 then ts[0]
    else
      var r := Best(ts[1..]);
      if Below(ts[0], r) then r else ts[0]
  }

  function OfClass(ts: seq<Task>, k: nat): seq<Task> {
    if ts == [] then [] else (if ts[0].class_ == k then [ts[0]] else []) + OfClass(ts[1..], k)
  }

  function OfCookie(ts: seq<Task>, cookie: nat): seq<Task> {
    if ts == [] then [] else (if ts[0].cookie == cookie then [ts[0]] else []) + OfCookie(ts[1..], cookie)
  }

  /** class->pick_task */
  function ClassPick(s: Sibling, k: nat): Option<Task> {
    if k == IDLE then Some(s.idle)
    else
      var ts := OfClass(s.tasks, k);
      if ts == [] then None else Some(Best(ts))
  }

  /** sched_core_find */
  function CookieFind(s: Sibling, cookie: nat): Task {
    var ts := OfCookie(s.tasks, cookie);
    if ts == [] then s.idle else Best(ts)
  }

  /** pick_task */
  function PickTask(s: Sibling, k: nat, max: Option<Task>, cookie: nat): Option<Task> {
    match ClassPick(s, k)
    case None => None
    case Some(p) =>
      if cookie == 0 then
        if max.Some? && p.cookie != 0 && PrioLess(p, max.value) then Some(s.idle) else Some(p)
      else if IsIdle(p) || p.cookie == cookie then Some(p)
      else
        var c := CookieFind(s, cookie);
        if PrioLess(c, p) && (max.None? || PrioLess(max.value, p)) then Some(p) else Some(c)
  }

  /** The most urgent task of a runqueue. */
  function Top(s: Sibling): Task {
    if s.tasks == [] then s.idle else Best(s.tasks)
  }

  lemma {:induction false} BestFacts(ts: seq<Task>, t: Task)
    requires |ts| > 0
    ensures Best(ts) in ts && (t in ts ==> !Below(Best(ts), t))
  {
    if |ts| > 1 {
      BestFacts(ts[1..], t);
      BelowTransitive(t, Best(ts[1..]), ts[0]);
      BelowTransitive(ts[0], Best(ts[1..]), t);
    }
  }

  lemma {:induction false} OfClassFacts(ts: seq<Task>, k: nat, t: Task)
    ensures t in OfClass(ts, k) <==> t in ts && t.class_ == k
  {
    if ts != [] { OfClassFacts(ts[1..], k, t); }
  }

  lemma {:induction false} OfCookieFacts(ts: seq<Task>, cookie: nat, t: Task)
    ensures t in OfCookie(ts, cookie) <==> t in ts && t.cookie == cookie
  {
    if ts != [] { OfCookieFacts(ts[1..], cookie, t); }
  }

  /** A class pick of a queue with nothing in higher classes is the top of the queue. */
  lemma {:induction false} ClassBestIsBest(ts: seq<Task>, k: nat)
    requires (forall t | t in ts :: TaskOk(t) && t.class_ >= k) && OfClass(ts, k) != []
    ensures Best(OfClass(ts, k)) == Best(ts)
  {
    var rest := ts[1..];
    if |ts| == 1 {
      assert OfClass(ts, k) == ts;
    } else {
      assert if ts[0].class_ == k then OfClass(ts, k)[1..] == OfClass(rest, k) else OfClass(ts, k) == OfClass(rest, k);
      assert ts[0] in ts && TaskOk(ts[0]);
      if OfClass(rest, k) == [] {
        assert OfClass(ts, k) == [ts[0]];
        var b := Best(rest);
        BestFacts(rest, b);
        OfClassFacts(rest, k, b);
      } else {
        ClassBestIsBest(rest, k);
        var b := Best(rest);
        BestFacts(OfClass(rest, k), b);
        OfClassFacts(rest, k, b);
        assert b in rest && b.class_ == k && TaskOk(b);
      }
    }
  }

  /** What a class answers once nothing of a higher class is runnable. */
  lemma ClassPickIsTop(s: Sibling, k: nat)
    requires SiblingOk(s) && k <= IDLE && forall t | t in s.tasks :: t.class_ >= k
    ensures match ClassPick(s, k)
            case None => forall t | t in s.tasks :: t.class_ > k
            case Some(p) => p == Top(s) && p.class_ == k
  {
    if k < IDLE {
      forall t: Task ensures t in OfClass(s.tasks, k) <==> t in s.tasks && t.class_ == k {
        OfClassFacts(s.tasks, k, t);
      }
      if OfClass(s.tasks, k) != [] {
        ClassBestIsBest(s.tasks, k);
        BestFacts(OfClass(s.tasks, k), s.idle);
      }
    } else {
      assert forall t | t in s.tasks :: TaskOk(t);
    }
  }

  lemma TopFacts(s: Sibling, t: Task)
    requires SiblingOk(s) && (t in s.tasks || t == s.idle)
    ensures !Below(Top(s), t) && (Top(s) in s.tasks || Top(s) == s.idle)
  {
    if s.tasks != [] {
      BestFacts(s.tasks, t);
      assert TaskOk(Best(s.tasks));
    }
  }

  /** The top of a runqueue is one of its tasks, idle only if there is none, and nothing there is more urgent. */
  lemma TopIsMostUrgent(s: Sibling)
    requires SiblingOk(s)
    ensures if s.tasks == [] then Top(s) == s.idle else Top(s) in s.tasks
    ensures forall t | t in s.tasks :: !MoreUrgent(t, Top(s))
  {
    if s.tasks != [] {
      BestFacts(s.tasks, s.idle);
      assert Proper(Top(s));
    }
    forall t | t in s.tasks ensures !MoreUrgent(t, Top(s)) {
      TopFacts(s, t);
      BelowIsUrgency(Top(s), t);
    }
  }

  lemma CookieFindFacts(s: Sibling, cookie: nat)
    requires SiblingOk(s)
    ensures var c := CookieFind(s, cookie);
            (c in s.tasks && c.cookie == cookie) || c == s.idle
  {
    var ts := OfCookie(s.tasks, cookie);
    if ts != [] {
      BestFacts(ts, s.idle);
      OfCookieFacts(s.tasks, cookie, Best(ts));
    }
  }

  // ---------------------------------------------------------------- the selection loop

  /** Where the loop stands: class k, sibling i, and the variables it carries. */
  datatype Sel = Sel(
    k: nat, i: nat, picks: seq<Option<Task>>, max: Option<Task>, cookie: nat, occ: nat, forceIdle: bool)

  /** One slot per sibling, all empty but slot i. */
  function Only(n: nat, i: nat, p: Task): seq<Option<Task>> {
    seq(n, j => if j == i then Some(p) else None)
  }

  function Start(n: nat): Sel {
    Sel(0, 0, seq(n, _ => None), None, 0, 0, false)
  }

  predicate Finished(s: Sel) {
    s.k > IDLE
  }

  predicate InStep(sibs: seq<Sibling>, s: Sel) {
    |s.picks| == |sibs| && s.i <= |sibs|
  }

  /** Recording pick p of sibling i, with the restart when p is not compatible with max. */
  function Record(sibs: seq<Sibling>, s: Sel, p: Task): Sel
    requires InStep(sibs, s) && s.i < |sibs|
  {
    var forced := IsIdle(p) && sibs[s.i].tasks != [];
    var s1 := s.(picks := s.picks[s.i := Some(p)], occ := s.occ + (if IsIdle(p) then 0 else 1),
                 forceIdle := s.forceIdle || forced, i := s.i + 1);
    if s.max.None? then s1.(max := Some(p), cookie := p.cookie)
    else if CookieMatch(s.max.value, p) then s1
    else s1.(max := Some(p), cookie := p.cookie, picks := Only(|sibs|, s.i, p), occ := 1, forceIdle := false, i := 0)
  }

  /** One turn of the loop over siblings, or the move to the next class. */
  function Step(sibs: seq<Sibling>, s: Sel): Sel
    requires InStep(sibs, s)
  {
    if s.i == |sibs| then s.(k := s.k + 1, i := 0)
    else if s.picks[s.i].Some? then s.(i := s.i + 1)
    else
      match PickTask(sibs[s.i], s.k, s.max, s.cookie)
      case None => s.(i := s.i + 1)
      case Some(p) => Record(sibs, s, p)
  }

  /** The loop's state after n turns. */
  function Iter(sibs: seq<Sibling>, s: Sel, n: nat): Sel
    requires InStep(sibs, s)
    decreases n
  {
    if n == 0 || Finished(s) then s else Iter(sibs, Step(sibs, s), n - 1)
  }

  /** Two siblings whose earliest-deadline tasks tie and carry different cookies. */
  predicate Tied(a: Sibling, b: Sibling) {
    var s, t := Top(a), Top(b);
    s.class_ == DL && t.class_ == DL && s.deadline == t.deadline && s.cookie != 0 && t.cookie != 0 &&
        s.cookie != t.cookie
  }

  // ---------------------------------------------------------------- the loop invariant

  /** Nothing on sibling j is runnable in a class before k. */
  predicate NothingBefore(sib: Sibling, k: nat) {
    forall t | t in sib.tasks :: t.class_ >= k
  }

  /** The pick is as urgent as everything on its runqueue, or the core's max is. */
  predicate Justified(sib: Sibling, p: Task, max: Task) {
    forall t | t in sib.tasks :: !Below(p, t) || !Below(max, t)
  }

  predicate PickOk(sib: Sibling, p: Task, max: Task) {
    && (p in sib.tasks || p == sib.idle)
    && CookieMatch(max, p)
    && Justified(sib, p, max)
  }

  function CountBusy(picks: seq<Option<Task>>): nat {
    if picks == [] then 0
    else CountBusy(picks[..|picks| - 1]) +
         (var p := picks[|picks| - 1]; if p.Some? && !IsIdle(p.value) then 1 else 0)
  }

  /** Sibling j was made idle although it has work. */
  predicate Forced(sib: Sibling, pick: Option<Task>) {
    pick.Some? && IsIdle(pick.value) && sib.tasks != []
  }

  /** The sibling max came from; it keeps its pick. */
  predicate MaxFrom(sibs: seq<Sibling>, s: Sel, m: nat) {
    m < |sibs| && |s.picks| == |sibs| && s.max.Some? && s.picks[m] == s.max && s.max.value == Top(sibs[m])
  }

  /** A sibling without a pick has nothing in the classes already asked. */
  predicate UnpickedOk(sibs: seq<Sibling>, s: Sel)
    requires InStep(sibs, s)
  {
    && s.k <= IDLE + 1 && (Finished(s) ==> s.i == 0)
    && (forall j | 0 <= j < |sibs| && s.picks[j].None? :: NothingBefore(sibs[j], if j < s.i then s.k + 1 else s.k))
    && (Finished(s) || s.k == IDLE ==> forall j | 0 <= j < |sibs| && (Finished(s) || j < s.i) :: s.picks[j].Some?)
  }

  /** max was the top of its sibling, no class before max's has work, and every pick tolerates max. */
  ghost predicate MaxOk(sibs: seq<Sibling>, s: Sel)
    requires InStep(sibs, s)
  {
    match s.max
    case None => s.cookie == 0 && forall j | 0 <= j < |sibs| :: s.picks[j].None?
    case Some(m) =>
      && s.cookie == m.cookie && m.class_ <= s.k
      && (forall j | 0 <= j < |sibs| :: NothingBefore(sibs[j], m.class_))
      && (forall j | 0 <= j < |sibs| && s.picks[j].Some? :: PickOk(sibs[j], s.picks[j].value, m))
      && exists j :: MaxFrom(sibs, s, j)
  }

  /** occ counts the busy picks; forceIdle says that some sibling was forced idle. */
  ghost predicate TallyOk(sibs: seq<Sibling>, s: Sel)
    requires InStep(sibs, s)
  {
    && s.occ == CountBusy(s.picks)
    && (s.forceIdle <==> exists j :: 0 <= j < |sibs| && Forced(sibs[j], s.picks[j]))
  }

  ghost predicate Good(sibs: seq<Sibling>, s: Sel) {
    InStep(sibs, s) && UnpickedOk(sibs, s) && MaxOk(sibs, s) && TallyOk(sibs, s)
  }

  // ---------------------------------------------------------------- one pick

  /** A pick that max tolerates is on its runqueue, compatible, and justified. */
  lemma CompatiblePick(sib: Sibling, k: nat, m: Task)
    requires SiblingOk(sib) && NothingBefore(sib, k) && k <= IDLE
    ensures var p := PickTask(sib, k, Some(m), m.cookie);
            p.Some? && CookieMatch(m, p.value) ==> PickOk(sib, p.value, m)
  {
    ClassPickIsTop(sib, k);
    if ClassPick(sib, k).Some? {
      var top := Top(sib);
      CookieFindFacts(sib, m.cookie);
      var c := CookieFind(sib, m.cookie);
      forall t | t in sib.tasks
        ensures !Below(top, t) && (!Below(m, top) ==> !Below(m, t)) && (!Below(c, top) ==> !Below(c, t))
      {
        TopFacts(sib, t);
        BelowTransitive(t, top, m);
        BelowTransitive(t, top, c);
      }
      TopFacts(sib, sib.idle);
    }
  }

  /** A pick that max does not tolerate is the top of its runqueue and at least as urgent as max. */
  lemma IncompatiblePick(sib: Sibling, k: nat, m: Task)
    requires SiblingOk(sib) && NothingBefore(sib, k) && k <= IDLE
    ensures var p := PickTask(sib, k, Some(m), m.cookie);
            p.Some? && !CookieMatch(m, p.value) ==>
              && p.value == Top(sib) && p.value.class_ == k && k < IDLE
              && (if m.cookie == 0 then !PrioLess(p.value, m) else PrioLess(m, p.value))
  {
    ClassPickIsTop(sib, k);
    CookieFindFacts(sib, m.cookie);
  }

  /** With no max yet the pick is the top of the runqueue. */
  lemma FirstPick(sib: Sibling, k: nat)
    requires SiblingOk(sib) && NothingBefore(sib, k) && k <= IDLE
    ensures match PickTask(sib, k, None, 0)
            case None => NothingBefore(sib, k + 1) && k < IDLE
            case Some(p) => p == Top(sib) && p.class_ == k && PickOk(sib, p, p)
  {
    ClassPickIsTop(sib, k);
    forall t | t in sib.tasks ensures !Below(Top(sib), t) { TopFacts(sib, t); }
    TopFacts(sib, sib.idle);
  }

  lemma TopOk(sib: Sibling)
    requires SiblingOk(sib)
    ensures TaskOk(Top(sib)) || Top(sib) == sib.idle
  {
    TopFacts(sib, sib.idle);
  }

  /** An incompatible pick is of no lower class than max, ties or not. */
  lemma RestartClass(sibs: seq<Sibling>, a: nat, i: nat, m: Task, p: Task)
    requires CoreOk(sibs) && a < |sibs| && i < |sibs|
    requires m == Top(sibs[a]) && p == Top(sibs[i]) && !CookieMatch(m, p)
    requires if m.cookie == 0 then !PrioLess(p, m) else PrioLess(m, p)
    ensures m.class_ >= p.class_
  {
    TopOk(sibs[a]);
    TopOk(sibs[i]);
  }

  /** It strictly raises the key of max, or the two tie in their deadlines. */
  lemma RestartRaises(sibs: seq<Sibling>, a: nat, i: nat, m: Task, p: Task)
    requires CoreOk(sibs) && a < |sibs| && i < |sibs|
    requires m == Top(sibs[a]) && p == Top(sibs[i]) && !CookieMatch(m, p)
    requires if m.cookie == 0 then !PrioLess(p, m) else PrioLess(m, p)
    ensures KeyLess(m, p) || Tied(sibs[a], sibs[i])
  {
    TopOk(sibs[a]);
    TopOk(sibs[i]);
  }

  // ---------------------------------------------------------------- bookkeeping

  lemma {:induction false} CountBusySet(picks: seq<Option<Task>>, i: nat, p: Task)
    requires i < |picks| && picks[i].None?
    ensures CountBusy(picks[i := Some(p)]) == CountBusy(picks) + if IsIdle(p) then 0 else 1
  {
    var l := |picks| - 1;
    if i < l {
      CountBusySet(picks[..l], i, p);
      assert picks[i := Some(p)][..l] == picks[..l][i := Some(p)];
    } else {
      assert picks[i := Some(p)][..l] == picks[..l];
    }
  }

  lemma {:induction false} CountBusyNone(picks: seq<Option<Task>>)
    requires forall j | 0 <= j < |picks| :: picks[j].None?
    ensures CountBusy(picks) == 0
  {
    if picks != [] { CountBusyNone(picks[..|picks| - 1]); }
  }

  lemma CountBusyOnly(n: nat, i: nat, p: Task)
    requires i < n && !IsIdle(p)
    ensures CountBusy(Only(n, i, p)) == 1
  {
    var none: seq<Option<Task>> := seq(n, _ => None);
    CountBusyNone(none);
    CountBusySet(none, i, p);
    assert Only(n, i, p) == none[i := Some(p)];
  }

  // ---------------------------------------------------------------- each turn keeps the invariant

  /** This turn restarts the sibling loop. */
  predicate Restarts(sibs: seq<Sibling>, s: Sel)
    requires InStep(sibs, s)
  {
    s.i < |sibs| && s.picks[s.i].None? && s.max.Some? &&
    var p := PickTask(sibs[s.i], s.k, s.max, s.cookie);
    p.Some? && !CookieMatch(s.max.value, p.value)
  }

  lemma StartGood(sibs: seq<Sibling>)
    requires CoreOk(sibs)
    ensures Good(sibs, Start(|sibs|))
  {
    CountBusyNone(Start(|sibs|).picks);
  }

  /** The turns that do not pick. */
  lemma AdvanceGood(sibs: seq<Sibling>, s: Sel)
    requires CoreOk(sibs) && Good(sibs, s) && !Finished(s)
    requires s.i == |sibs| || s.picks[s.i].Some? || PickTask(sibs[s.i], s.k, s.max, s.cookie).None?
    ensures Good(sibs, Step(sibs, s))
  {
    if s.i < |sibs| && s.picks[s.i].None? { ClassPickIsTop(sibs[s.i], s.k); }
    var s' := Step(sibs, s);
    assert s'.picks == s.picks && s'.max == s.max;
    assert UnpickedOk(sibs, s');
    if s.max.Some? {
      var a :| MaxFrom(sibs, s, a);
      assert MaxFrom(sibs, s', a);
    }
    hide UnpickedOk, PickOk, NothingBefore, PickTask;
  }

  /** Filling an empty slot without a restart keeps the tally. */
  lemma TallyFills(sibs: seq<Sibling>, s: Sel, p: Task, s': Sel)
    requires InStep(sibs, s) && TallyOk(sibs, s) && s.i < |sibs| && s.picks[s.i].None?
    requires s'.picks == s.picks[s.i := Some(p)] && s'.i <= |sibs|
    requires s'.occ == s.occ + (if IsIdle(p) then 0 else 1)
    requires s'.forceIdle == (s.forceIdle || (IsIdle(p) && sibs[s.i].tasks != []))
    ensures TallyOk(sibs, s')
  {
    CountBusySet(s.picks, s.i, p);
    assert forall j | 0 <= j < |sibs| && j != s.i :: Forced(sibs[j], s'.picks[j]) <==> Forced(sibs[j], s.picks[j]);
    assert Forced(sibs[s.i], s'.picks[s.i]) <==> IsIdle(p) && sibs[s.i].tasks != [];
  }

  lemma FirstMaxGood(sibs: seq<Sibling>, s: Sel)
    requires CoreOk(sibs) && Good(sibs, s) && !Finished(s) && s.i < |sibs| && s.max.None?
    requires PickTask(sibs[s.i], s.k, s.max, s.cookie).Some?
    ensures Good(sibs, Step(sibs, s))
    ensures MaxFrom(sibs, Step(sibs, s), s.i)
  {
    FirstPick(sibs[s.i], s.k);
    var p := PickTask(sibs[s.i], s.k, s.max, s.cookie).value;
    var s' := Step(sibs, s);
    TallyFills(sibs, s, p, s');
    assert MaxFrom(sibs, s', s.i);
    hide TallyOk, PickTask;
  }

  lemma CompatibleGood(sibs: seq<Sibling>, s: Sel)
    requires CoreOk(sibs) && Good(sibs, s) && !Finished(s) && s.i < |sibs| && s.picks[s.i].None? && s.max.Some?
    requires var p := PickTask(sibs[s.i], s.k, s.max, s.cookie); p.Some? && CookieMatch(s.max.value, p.value)
    ensures Good(sibs, Step(sibs, s)) && Step(sibs, s).max == s.max
  {
    CompatiblePick(sibs[s.i], s.k, s.max.value);
    var p := PickTask(sibs[s.i], s.k, s.max, s.cookie).value;
    var s' := Step(sibs, s);
    TallyFills(sibs, s, p, s');
    var a :| MaxFrom(sibs, s, a);
    assert MaxFrom(sibs, s', a);
    hide TallyOk, PickTask, PickOk;
  }

  /** An incompatible pick is the top of its runqueue, and raises the key of max unless deadlines tie. */
  lemma RestartPick(sibs: seq<Sibling>, s: Sel, x: nat)
    requires CoreOk(sibs) && Good(sibs, s) && !Finished(s) && Restarts(sibs, s) && MaxFrom(sibs, s, x)
    ensures var m, p := s.max.value, PickTask(sibs[s.i], s.k, s.max, s.cookie).value;
            && p == Top(sibs[s.i]) && p.class_ == s.k == m.class_ && s.k < IDLE
            && (if m.cookie == 0 then !PrioLess(p, m) else PrioLess(m, p))
            && (KeyLess(m, p) || Tied(sibs[x], sibs[s.i]))
  {
    IncompatiblePick(sibs[s.i], s.k, s.max.value);
    var p := PickTask(sibs[s.i], s.k, s.max, s.cookie).value;
    hide PickTask, KeyLess, Top, PrioLess, TallyOk, UnpickedOk, Tied;
    RestartClass(sibs, x, s.i, s.max.value, p);
    RestartRaises(sibs, x, s.i, s.max.value, p);
  }

  lemma RestartGood(sibs: seq<Sibling>, s: Sel)
    requires CoreOk(sibs) && Good(sibs, s) && !Finished(s) && Restarts(sibs, s)
    ensures Good(sibs, Step(sibs, s)) && MaxFrom(sibs, Step(sibs, s), s.i)
  {
    hide TallyOk, PickTask, PickOk, Top, PrioLess, Tied, KeyLess;
    var p := PickTask(sibs[s.i], s.k, s.max, s.cookie).value;
    var x: nat :| MaxFrom(sibs, s, x);
    RestartPick(sibs, s, x);
    TopAlone(sibs, s, p);
  }

  /** After a restart only the new max is picked. */
  lemma TopAlone(sibs: seq<Sibling>, s: Sel, p: Task)
    requires CoreOk(sibs) && InStep(sibs, s) && s.i < |sibs| && p == Top(sibs[s.i]) && !IsIdle(p)
    ensures var s' := s.(max := Some(p), cookie := p.cookie, picks := Only(|sibs|, s.i, p), occ := 1,
        forceIdle := false, i := 0);
            && InStep(sibs, s') && TallyOk(sibs, s') && PickOk(sibs[s.i], p, p) && MaxFrom(sibs, s', s.i)
  {
    CountBusyOnly(|sibs|, s.i, p);
    forall t | t in sibs[s.i].tasks ensures !Below(p, t) { TopFacts(sibs[s.i], t); }
    TopFacts(sibs[s.i], sibs[s.i].idle);
  }

  /** Where max stands after this turn, if it stands at x now. */
  function NextMax(sibs: seq<Sibling>, s: Sel, x: nat): nat
    requires InStep(sibs, s)
  {
    if s.max.None? || Restarts(sibs, s) then s.i else x
  }

  /** Every turn keeps the invariant, and without a restart the loop moves on. */
  lemma StepGood(sibs: seq<Sibling>, s: Sel)
    requires CoreOk(sibs) && Good(sibs, s) && !Finished(s)
    ensures var s' := Step(sibs, s);
            && Good(sibs, s')
            && (s.max.Some? && !Restarts(sibs, s) ==> s'.max == s.max)
            && (forall x | s.max.Some? ==> MaxFrom(sibs, s, x) ::
                  s'.max.Some? ==> MaxFrom(sibs, s', NextMax(sibs, s, x)))
            && (!Restarts(sibs, s) ==> s'.k > s.k || (s'.k == s.k && s'.i > s.i))
  {
    assert s.max.None? && s.i < |sibs| ==> s.picks[s.i].None?;
    hide Good, PickTask;
    if s.i == |sibs| || s.picks[s.i].Some? || PickTask(sibs[s.i], s.k, s.max, s.cookie).None? {
      AdvanceGood(sibs, s);
    } else if s.max.None? {
      FirstMaxGood(sibs, s);
    } else if Restarts(sibs, s) {
      RestartGood(sibs, s);
    } else {
      CompatibleGood(sibs, s);
    }
  }

  // ---------------------------------------------------------------- what the loop ends in

  /** What a finished selection promises. */
  ghost predicate Selected(sibs: seq<Sibling>, s: Sel) {
    && |s.picks| == |sibs|
    && (forall j | 0 <= j < |sibs| :: s.picks[j].Some?)
    && (forall j | 0 <= j < |sibs| :: s.picks[j].value in sibs[j].tasks || s.picks[j].value == sibs[j].idle)
    && (forall a, b | 0 <= a < |sibs| && 0 <= b < |sibs| :: CookieMatch(s.picks[a].value, s.picks[b].value))
    && (exists m: nat :: MaxFrom(sibs, s, m) &&
          forall j | 0 <= j < |sibs| :: Justified(sibs[j], s.picks[j].value, s.max.value))
    && s.max.value.cookie == s.cookie
    && (forall j | 0 <= j < |sibs| :: IsIdle(s.picks[j].value) || s.picks[j].value.cookie == s.cookie)
    && s.occ == CountBusy(s.picks)
    && (s.forceIdle <==> exists j :: 0 <= j < |sibs| && Forced(sibs[j], s.picks[j]))
  }

  lemma FinishedIsSelected(sibs: seq<Sibling>, s: Sel)
    requires CoreOk(sibs) && Good(sibs, s) && Finished(s)
    ensures Selected(sibs, s)
  {
    assert s.picks[0].Some? && s.max.Some?;
    forall j | 0 <= j < |sibs| ensures PickOk(sibs[j], s.picks[j].value, s.max.value) { }
    var m: nat :| MaxFrom(sibs, s, m);
    if IsIdle(s.max.value) {
      TopFacts(sibs[m], sibs[m].idle);
      forall j | 0 <= j < |sibs| ensures IsIdle(s.picks[j].value) {
        IdleMaxMeansIdle(sibs[j], s.picks[j].value, s.max.value);
      }
    }
  }

  lemma IdleMaxMeansIdle(sib: Sibling, p: Task, m: Task)
    requires SiblingOk(sib) && IsIdle(m) && NothingBefore(sib, m.class_) && (p in sib.tasks || p == sib.idle)
    ensures IsIdle(p)
  {
    assert p in sib.tasks ==> TaskOk(p) && p.class_ >= m.class_;
  }

  /** s is where the selection over sibs ends. */
  ghost predicate IsOutcome(sibs: seq<Sibling>, s: Sel) {
    exists n: nat :: Finished(Iter(sibs, Start(|sibs|), n)) && s == Iter(sibs, Start(|sibs|), n)
  }

  lemma {:induction false} IterStops(sibs: seq<Sibling>, s: Sel, m: nat, n: nat)
    requires InStep(sibs, s) && Finished(Iter(sibs, s, m)) && Finished(Iter(sibs, s, n))
    ensures Iter(sibs, s, m) == Iter(sibs, s, n)
    decreases m
  {
    if m > 0 && n > 0 && !Finished(s) { IterStops(sibs, Step(sibs, s), m - 1, n - 1); }
  }

  /** A selection ends in at most one state. */
  lemma OutcomeUnique(sibs: seq<Sibling>, s: Sel, t: Sel)
    requires IsOutcome(sibs, s) && IsOutcome(sibs, t)
    ensures s == t
  {
    var m: nat :| Finished(Iter(sibs, Start(|sibs|), m)) && s == Iter(sibs, Start(|sibs|), m);
    var n: nat :| Finished(Iter(sibs, Start(|sibs|), n)) && t == Iter(sibs, Start(|sibs|), n);
    IterStops(sibs, Start(|sibs|), m, n);
  }

  lemma CoreSibling(sibs: seq<Sibling>, j: nat)
    requires CoreOk(sibs) && j < |sibs|
    ensures SiblingOk(sibs[j])
  {
  }

  lemma {:induction false} IterNext(sibs: seq<Sibling>, s: Sel, n: nat)
    requires InStep(sibs, s) && !Finished(Iter(sibs, s, n)) && InStep(sibs, Iter(sibs, s, n))
    ensures Iter(sibs, s, n + 1) == Step(sibs, Iter(sibs, s, n))
    decreases n
  {
    if n > 0 { IterNext(sibs, Step(sibs, s), n - 1); }
  }
}
