/**
 Taking two runqueue locks at once (kernel/sched/sched.h and core.c: rq_order_less,
 double_rq_lock, double_rq_unlock, _double_lock_balance, double_unlock_balance), by any
 number of threads on any number of CPUs.

 Under core scheduling the siblings of a core share one lock. Which CPUs form a core, and
 whether core scheduling is on, stay fixed. A lock is named after the CPU whose runqueue
 embeds it.
 */
module RqLocks {
  import opened Wrappers
  import opened Arith

  /** core[c] is the CPU that rq->core of CPU c belongs to. */
  datatype Machine = Machine(core: seq<nat>, coreEnabled: bool, preemption: bool)

  predicate MachineOk(m: Machine) {
    forall c | 0 <= c < |m.core| :: m.core[c] < |m.core| && m.core[m.core[c]] == m.core[c]
  }

  predicate Cpu(m: Machine, c: nat) {
    c < |m.core|
  }

  /** __rq_lockp */
  function Lockp(m: Machine, c: nat): nat
    requires Cpu(m, c)
  {
    if m.coreEnabled then m.core[c] else c
  }

  /** rq_order_less */
  predicate OrderLess(m: Machine, a: nat, b: nat)
    requires Cpu(m, a) && Cpu(m, b)
  {
    if m.core[a] < m.core[b] then true
    else if m.core[a] > m.core[b] then false
    else a < b
  }

  /**
   Where a thread stands. It is blocked in the Want states: WantFirst and WantSecond belong
   to double_rq_lock (runqueues already swapped into order), WantSecond also to the last
   resort of _double_lock_balance. TryFailed is _double_lock_balance after a failed trylock,
   Unlocking is double_rq_unlock after its first half.
   */
  datatype Pc =
    | Outside
    | WantOne(rq: nat)
    | HasOne(rq: nat)
    | WantFirst(first: nat, second: nat)
    | WantSecond(first: nat, second: nat)
    | HasBoth(first: nat, second: nat)
    | TryFailed(this_: nat, busiest: nat)
    | Unlocking(rq: nat)

  /** broken: a thread has released a lock that was not its own. */
  datatype State = State(pc: seq<Pc>, owner: map<nat, nat>, broken: bool)

  datatype Event =
    | Lock(rq: nat)                      // raw_spin_rq_lock on one runqueue
    | Unlock                             // raw_spin_rq_unlock of it
    | DoubleLock(rq1: nat, rq2: nat)     // double_rq_lock is called
    | Acquire                            // a blocked thread gets its lock
    | DoubleUnlock(rq1: nat, rq2: nat)   // double_rq_unlock is called
    | LockBalance(busiest: nat)          // _double_lock_balance is called with this_rq held
    | AfterTry                           // and goes on after a failed trylock
    | UnlockBalance(this_: nat, busiest: nat)

  // ---------------------------------------------------------------- steps

  function Go(s: State, t: nat, pc: Pc): State
    requires t < |s.pc|
  {
    s.(pc := s.pc[t := pc])
  }

  function Take(s: State, t: nat, l: nat): State {
    s.(owner := s.owner[l := t])
  }

  function Release(s: State, t: nat, l: nat): State {
    s.(owner := s.owner - {l}, broken := s.broken || !(l in s.owner && s.owner[l] == t))
  }

  predicate Free(s: State, l: nat) {
    l !in s.owner
  }

  /** The start of double_rq_lock: order the runqueues. */
  function StartDouble(m: Machine, rq1: nat, rq2: nat): Pc
    requires Cpu(m, rq1) && Cpu(m, rq2)
  {
    if OrderLess(m, rq2, rq1) then WantFirst(rq2, rq1) else WantFirst(rq1, rq2)
  }

  predicate Among(x: nat, y: nat, pc: Pc) {
    pc.HasBoth? && ((x == pc.first && y == pc.second) || (x == pc.second && y == pc.first))
  }

  predicate PcOk(m: Machine, pc: Pc) {
    match pc
    case Outside => true
    case WantOne(a) => Cpu(m, a)
    case HasOne(a) => Cpu(m, a)
    case Unlocking(a) => Cpu(m, a)
    case WantFirst(a, b) => Cpu(m, a) && Cpu(m, b)
    case WantSecond(a, b) => Cpu(m, a) && Cpu(m, b)
    case HasBoth(a, b) => Cpu(m, a) && Cpu(m, b)
    case TryFailed(a, b) => Cpu(m, a) && Cpu(m, b)
  }

  predicate Shaped(m: Machine, s: State) {
    MachineOk(m) && forall t | 0 <= t < |s.pc| :: PcOk(m, s.pc[t])
  }

  /** The lock a blocked thread spins on. */
  function Wants(m: Machine, pc: Pc): Option<nat>
    requires PcOk(m, pc)
  {
    match pc
    case WantOne(a) => Some(Lockp(m, a))
    case WantFirst(a, _) => Some(Lockp(m, a))
    case WantSecond(_, b) => Some(Lockp(m, b))
    case _ => None
  }

  /** A thread may take this step now. */
  predicate Enabled(m: Machine, s: State, t: nat, e: Event)
    requires Shaped(m, s)
  {
    && t < |s.pc|
    && var pc := s.pc[t];
       match e
       case Lock(a) => pc.Outside? && Cpu(m, a)
       case Unlock => pc.HasOne? || pc.Unlocking?
       case DoubleLock(a, b) => pc.Outside? && Cpu(m, a) && Cpu(m, b)
       case Acquire => Wants(m, pc).Some? && Free(s, Wants(m, pc).value)
       case DoubleUnlock(a, b) => Among(a, b, pc)
       case LockBalance(b) => pc.HasOne? && Cpu(m, b)
       case AfterTry => pc.TryFailed?
       case UnlockBalance(a, b) => Among(a, b, pc)
  }

  function Next(m: Machine, s: State, t: nat, e: Event): State
    requires Shaped(m, s) && Enabled(m, s, t, e)
  {
    var pc := s.pc[t];
    match e
    case Lock(a) => Go(s, t, WantOne(a))
    case Unlock => Release(Go(s, t, Outside), t, Lockp(m, pc.rq))
    case DoubleLock(a, b) => Go(s, t, StartDouble(m, a, b))
    case Acquire =>
      var s' := Take(s, t, Wants(m, pc).value);
      (match pc
       case WantOne(a) => Go(s', t, HasOne(a))
       case WantFirst(a, b) =>
         if Lockp(m, a) != Lockp(m, b) then Go(s', t, WantSecond(a, b)) else Go(s', t, HasBoth(a, b))
       case WantSecond(a, b) => Go(s', t, HasBoth(a, b)))
    case DoubleUnlock(a, b) =>
      var s' := Go(s, t, Unlocking(a));
      if Lockp(m, a) != Lockp(m, b) then Release(s', t, Lockp(m, b)) else s'
    case LockBalance(b) =>
      var a := pc.rq;
      if m.preemption then Release(Go(s, t, StartDouble(m, a, b)), t, Lockp(m, a))
      else if Lockp(m, a) == Lockp(m, b) then Go(s, t, HasBoth(a, b))
      else if Free(s, Lockp(m, b)) then Take(Go(s, t, HasBoth(a, b)), t, Lockp(m, b))
      else Go(s, t, TryFailed(a, b))
    case AfterTry =>
      var TryFailed(a, b) := pc;
      if OrderLess(m, a, b) then Go(s, t, WantSecond(a, b))
      else Release(Go(s, t, StartDouble(m, a, b)), t, Lockp(m, a))
    case UnlockBalance(a, b) =>
      var s' := Go(s, t, HasOne(a));
      if Lockp(m, a) != Lockp(m, b) then Release(s', t, Lockp(m, b)) else s'
  }

  predicate Initial(s: State) {
    s.owner == map[] && !s.broken && forall t | 0 <= t < |s.pc| :: s.pc[t] == Outside
  }

  // ---------------------------------------------------------------- the invariant

  /** The locks a thread at pc holds. */
  function Held(m: Machine, pc: Pc): set<nat>
    requires PcOk(m, pc)
  {
    match pc
    case HasOne(a) => {Lockp(m, a)}
    case Unlocking(a) => {Lockp(m, a)}
    case WantSecond(a, _) => {Lockp(m, a)}
    case TryFailed(a, _) => {Lockp(m, a)}
    case HasBoth(a, b) => {Lockp(m, a), Lockp(m, b)}
    case _ => {}
  }

  /** A lock is owned by exactly the thread whose position says that it holds it. */
  predicate OwnersMatch(m: Machine, s: State)
    requires Shaped(m, s)
  {
    && (forall l | l in s.owner :: s.owner[l] < |s.pc| && l in Held(m, s.pc[s.owner[l]]))
    && (forall t, l | 0 <= t < |s.pc| && l in Held(m, s.pc[t]) :: l in s.owner && s.owner[l] == t)
  }

  /** Whoever waits for a second lock does so in the order of the runqueues, and for another lock. */
  predicate InOrder(m: Machine, pc: Pc)
    requires PcOk(m, pc)
  {
    match pc
    case WantFirst(a, b) => !OrderLess(m, b, a)
    case WantSecond(a, b) => OrderLess(m, a, b) && Lockp(m, a) != Lockp(m, b)
    case TryFailed(a, b) => Lockp(m, a) != Lockp(m, b)
    case _ => true
  }

  predicate Inv(m: Machine, s: State) {
    Shaped(m, s) && !s.broken && OwnersMatch(m, s) && forall t | 0 <= t < |s.pc| :: InOrder(m, s.pc[t])
  }

  lemma InitialInv(m: Machine, s: State)
    requires MachineOk(m) && Initial(s)
    ensures Inv(m, s)
  {
  }

  /** Runqueues with different locks are ordered one way or the other. */
  lemma OrderTotal(m: Machine, a: nat, b: nat)
    requires MachineOk(m) && Cpu(m, a) && Cpu(m, b) && Lockp(m, a) != Lockp(m, b)
    ensures OrderLess(m, a, b) <==> !OrderLess(m, b, a)
  {
  }

  /** Thread t moves, releases the locks it no longer holds and takes free ones. */
  ghost predicate Moves(m: Machine, s: State, t: nat, s': State)
    requires Shaped(m, s) && t < |s.pc|
  {
    && |s'.pc| == |s.pc| && (forall u | 0 <= u < |s.pc| && u != t :: s'.pc[u] == s.pc[u])
    && PcOk(m, s'.pc[t]) && InOrder(m, s'.pc[t]) && s'.broken == s.broken
    && var old_, new_ := Held(m, s.pc[t]), Held(m, s'.pc[t]);
       && (forall l :: l in s'.owner <==> l in new_ || (l in s.owner && l !in old_))
       && (forall l | l in s'.owner :: s'.owner[l] == if l in new_ then t else s.owner[l])
       && (forall l | l in new_ && l !in old_ :: Free(s, l))
  }

  lemma MovesKeeps(m: Machine, s: State, t: nat, s': State)
    requires Inv(m, s) && t < |s.pc| && Moves(m, s, t, s')
    ensures Inv(m, s')
  {
    hide Lockp, InOrder, Held, PcOk;
    forall u, l | 0 <= u < |s'.pc| && l in Held(m, s'.pc[u]) ensures l in s'.owner && s'.owner[l] == u {
      if u != t { assert l in s.owner && s.owner[l] == u; }
    }
    forall l | l in s'.owner ensures s'.owner[l] < |s'.pc| && l in Held(m, s'.pc[s'.owner[l]]) {
    }
  }

  /** The locks of a thread are its own. */
  lemma Owns(m: Machine, s: State, t: nat)
    requires Inv(m, s) && t < |s.pc|
    ensures forall l | l in Held(m, s.pc[t]) :: l in s.owner && s.owner[l] == t
    ensures InOrder(m, s.pc[t]) && PcOk(m, s.pc[t]) && MachineOk(m)
  {
  }

  lemma GoMoves(m: Machine, s: State, t: nat, pc: Pc)
    requires Inv(m, s) && t < |s.pc| && PcOk(m, pc) && InOrder(m, pc) && Held(m, pc) == Held(m, s.pc[t])
    ensures Moves(m, s, t, Go(s, t, pc))
  {
    hide OwnersMatch, Shaped, Lockp, Held, InOrder, PcOk;
    Owns(m, s, t);
    hide Inv;
  }

  lemma ReleaseMoves(m: Machine, s: State, t: nat, pc: Pc, l: nat)
    requires Inv(m, s) && t < |s.pc| && PcOk(m, pc) && InOrder(m, pc)
    requires l in Held(m, s.pc[t]) && Held(m, pc) == Held(m, s.pc[t]) - {l}
    ensures Moves(m, s, t, Release(Go(s, t, pc), t, l))
  {
    hide OwnersMatch, Shaped, Lockp, Held, InOrder, PcOk;
    Owns(m, s, t);
    hide Inv;
  }

  lemma TakeMoves(m: Machine, s: State, t: nat, pc: Pc, l: nat)
    requires Inv(m, s) && t < |s.pc| && PcOk(m, pc) && InOrder(m, pc)
    requires Free(s, l) && Held(m, pc) == Held(m, s.pc[t]) + {l}
    ensures Go(Take(s, t, l), t, pc) == Take(Go(s, t, pc), t, l)
    ensures Moves(m, s, t, Take(Go(s, t, pc), t, l))
  {
    hide OwnersMatch, Shaped, Lockp, Held, InOrder, PcOk;
    Owns(m, s, t);
    hide Inv;
  }

  lemma AcquireMoves(m: Machine, s: State, t: nat)
    requires Inv(m, s) && Enabled(m, s, t, Acquire)
    ensures Moves(m, s, t, Next(m, s, t, Acquire))
  {
    Owns(m, s, t);
    hide OwnersMatch, Shaped, Moves, Go, Take, Release, Lockp, OrderLess;
    match s.pc[t]
    case WantOne(a) => TakeMoves(m, s, t, HasOne(a), Lockp(m, a));
    case WantFirst(a, b) =>
      if Lockp(m, a) != Lockp(m, b) { OrderTotal(m, a, b); }
      TakeMoves(m, s, t, if Lockp(m, a) != Lockp(m, b) then WantSecond(a, b) else HasBoth(a, b), Lockp(m, a));
    case WantSecond(a, b) => TakeMoves(m, s, t, HasBoth(a, b), Lockp(m, b));
  }

  /** Giving up the second of two locks, unless it is the same lock. */
  lemma DoubleUnlockMoves(m: Machine, s: State, t: nat, e: Event)
    requires Inv(m, s) && Enabled(m, s, t, e) && (e.DoubleUnlock? || e.UnlockBalance?)
    ensures Moves(m, s, t, Next(m, s, t, e))
  {
    Owns(m, s, t);
    hide OwnersMatch, Shaped, Moves, Go, Take, Release, Lockp;
    var (a, b) := if e.DoubleUnlock? then (e.rq1, e.rq2) else (e.this_, e.busiest);
    var pc := if e.DoubleUnlock? then Unlocking(a) else HasOne(a);
    assert Held(m, s.pc[t]) == {Lockp(m, a), Lockp(m, b)};
    if Lockp(m, a) != Lockp(m, b) { ReleaseMoves(m, s, t, pc, Lockp(m, b)); } else { GoMoves(m, s, t, pc); }
  }

  lemma StartDoubleFacts(m: Machine, a: nat, b: nat)
    requires MachineOk(m) && Cpu(m, a) && Cpu(m, b)
    ensures var pc := StartDouble(m, a, b); PcOk(m, pc) && InOrder(m, pc) && Held(m, pc) == {} && pc.WantFirst?
  {
  }

  lemma BalanceMoves(m: Machine, s: State, t: nat, e: Event)
    requires Inv(m, s) && Enabled(m, s, t, e) && (e.LockBalance? || e.AfterTry?)
    ensures Moves(m, s, t, Next(m, s, t, e))
  {
    Owns(m, s, t);
    hide OwnersMatch, Shaped, Moves, Go, Take, Release, Lockp, StartDouble, OrderLess;
    var a := if e.AfterTry? then s.pc[t].this_ else s.pc[t].rq;
    var b := if e.AfterTry? then s.pc[t].busiest else e.busiest;
    StartDoubleFacts(m, a, b);
    if e.AfterTry? {
      if OrderLess(m, a, b) { GoMoves(m, s, t, WantSecond(a, b)); }
      else { ReleaseMoves(m, s, t, StartDouble(m, a, b), Lockp(m, a)); }
    } else if m.preemption { ReleaseMoves(m, s, t, StartDouble(m, a, b), Lockp(m, a)); }
    else if Lockp(m, a) == Lockp(m, b) { GoMoves(m, s, t, HasBoth(a, b)); }
    else if Free(s, Lockp(m, b)) { TakeMoves(m, s, t, HasBoth(a, b), Lockp(m, b)); }
    else { GoMoves(m, s, t, TryFailed(a, b)); }
  }

  lemma SingleMoves(m: Machine, s: State, t: nat, e: Event)
    requires Inv(m, s) && Enabled(m, s, t, e) && (e.Lock? || e.Unlock? || e.DoubleLock?)
    ensures Moves(m, s, t, Next(m, s, t, e))
  {
    Owns(m, s, t);
    hide OwnersMatch, Shaped, Moves, Go, Take, Release, Lockp, StartDouble, OrderLess, Inv;
    match e
    case Lock(a) => GoMoves(m, s, t, WantOne(a));
    case Unlock => ReleaseMoves(m, s, t, Outside, Lockp(m, s.pc[t].rq));
    case DoubleLock(a, b) =>
      StartDoubleFacts(m, a, b);
      GoMoves(m, s, t, StartDouble(m, a, b));
  }

  /** Every step keeps the invariant; what it releases is its own, what it takes was free. */
  lemma StepKeeps(m: Machine, s: State, t: nat, e: Event)
    requires Inv(m, s) && Enabled(m, s, t, e)
    ensures Moves(m, s, t, Next(m, s, t, e)) && Inv(m, Next(m, s, t, e))
  {
    hide OwnersMatch, Shaped, Lockp, Moves, Next;
    match e
    case Acquire => AcquireMoves(m, s, t); MovesKeeps(m, s, t, Next(m, s, t, e));
    case DoubleUnlock(_, _) => DoubleUnlockMoves(m, s, t, e); MovesKeeps(m, s, t, Next(m, s, t, e));
    case UnlockBalance(_, _) => DoubleUnlockMoves(m, s, t, e); MovesKeeps(m, s, t, Next(m, s, t, e));
    case LockBalance(_) => BalanceMoves(m, s, t, e); MovesKeeps(m, s, t, Next(m, s, t, e));
    case AfterTry => BalanceMoves(m, s, t, e); MovesKeeps(m, s, t, Next(m, s, t, e));
    case _ => SingleMoves(m, s, t, e); MovesKeeps(m, s, t, Next(m, s, t, e));
  }

  // ---------------------------------------------------------------- runs

  datatype Turn = Turn(thread: nat, event: Event)

  /** ss are the states of a run in which the turns are taken one after the other. */
  predicate Run(m: Machine, ss: seq<State>, turns: seq<Turn>) {
    && MachineOk(m) && |ss| == |turns| + 1 && Initial(ss[0])
    && forall i | 0 <= i < |turns| ::
         Shaped(m, ss[i]) && Enabled(m, ss[i], turns[i].thread, turns[i].event) &&
         ss[i + 1] == Next(m, ss[i], turns[i].thread, turns[i].event)
  }

  /** In every reachable state of any number of threads the invariant holds. */
  lemma {:induction false} RunKeeps(m: Machine, ss: seq<State>, turns: seq<Turn>, i: nat)
    requires Run(m, ss, turns) && i < |ss|
    ensures Inv(m, ss[i])
  {
    hide Next, Inv;
    if i == 0 {
      InitialInv(m, ss[0]);
    } else {
      RunKeeps(m, ss, turns, i - 1);
      StepKeeps(m, ss[i - 1], turns[i - 1].thread, turns[i - 1].event);
    }
  }

  /** No two threads ever hold the same lock, and no thread ever releases a lock that is not its own. */
  lemma MutualExclusion(m: Machine, ss: seq<State>, turns: seq<Turn>, i: nat, t: nat, u: nat)
    requires Run(m, ss, turns) && i < |ss| && Shaped(m, ss[i]) && t < |ss[i].pc| && u < |ss[i].pc| && t != u
    ensures Held(m, ss[i].pc[t]) !! Held(m, ss[i].pc[u]) && !ss[i].broken
  {
    RunKeeps(m, ss, turns, i);
    Owns(m, ss[i], t);
    Owns(m, ss[i], u);
  }

  /**
   A thread that holds a runqueue lock and is blocked on another one holds the lock of the
   lesser runqueue, and a lock it holds is never the one it waits for.
   */
  lemma BlocksInOrder(m: Machine, ss: seq<State>, turns: seq<Turn>, i: nat, t: nat)
    requires Run(m, ss, turns) && i < |ss| && Shaped(m, ss[i]) && t < |ss[i].pc|
    ensures var pc := ss[i].pc[t];
            Wants(m, pc).Some? && Held(m, pc) != {} ==>
              && pc.WantSecond? && OrderLess(m, pc.first, pc.second)
              && Held(m, pc) == {Lockp(m, pc.first)} && Wants(m, pc) == Some(Lockp(m, pc.second))
              && Lockp(m, pc.first) != Lockp(m, pc.second)
  {
    RunKeeps(m, ss, turns, i);
    Owns(m, ss[i], t);
  }

  /**
   Locking and unlocking a pair is balanced: with a shared lock it is taken and released
   once, otherwise each of the two is; afterwards a thread outside holds nothing.
   */
  lemma HoldsWhatItTook(m: Machine, s: State, t: nat)
    requires Inv(m, s) && t < |s.pc|
    ensures var mine := set l | l in s.owner && s.owner[l] == t;
            && mine == Held(m, s.pc[t])
            && (s.pc[t].Outside? ==> mine == {})
            && (s.pc[t].HasBoth? ==> |mine| == if Lockp(m, s.pc[t].first) == Lockp(m, s.pc[t].second) then 1 else 2)
            && (s.pc[t].HasOne? || s.pc[t].Unlocking? ==> mine == {Lockp(m, s.pc[t].rq)})
  {
    Owns(m, s, t);
    assert forall l | l in s.owner && s.owner[l] == t :: l in Held(m, s.pc[t]);
  }

  // ---------------------------------------------------------------- no deadlock

  /** t is blocked on a lock that u holds. */
  predicate WaitsFor(m: Machine, s: State, t: nat, u: nat)
    requires Shaped(m, s)
  {
    && t < |s.pc| && u < |s.pc| && Wants(m, s.pc[t]).Some?
    && Wants(m, s.pc[t]).value in s.owner && s.owner[Wants(m, s.pc[t]).value] == u
  }

  /** The place of a lock in the order of the runqueues. */
  function Rank(m: Machine, l: nat): nat
    requires MachineOk(m) && Cpu(m, l)
  {
    m.core[l] * |m.core| + l
  }

  lemma RankMono(c: nat, d: nat, n: nat, x: nat, y: nat)
    requires c < d && x < n
    ensures c * n + x < d * n + y
  {
    MulMono(c + 1, d, n);
  }

  lemma RankBound(m: Machine, l: nat)
    requires MachineOk(m) && Cpu(m, l)
    ensures Rank(m, l) < |m.core| * |m.core|
  {
    RankMono(m.core[l], |m.core|, |m.core|, l, 0);
  }

  lemma RankOrder(m: Machine, a: nat, b: nat)
    requires MachineOk(m) && Cpu(m, a) && Cpu(m, b) && OrderLess(m, a, b) && Lockp(m, a) != Lockp(m, b)
    ensures Rank(m, Lockp(m, a)) < Rank(m, Lockp(m, b))
  {
    var x, y := Lockp(m, a), Lockp(m, b);
    assert m.core[x] == m.core[a] && m.core[y] == m.core[b];
    if m.core[a] < m.core[b] { RankMono(m.core[x], m.core[y], |m.core|, x, y); }
  }

  /** How far up a blocked thread waits; 0 for the others. */
  function Awaits(m: Machine, s: State, t: nat): nat
    requires Shaped(m, s) && t < |s.pc|
  {
    match Wants(m, s.pc[t])
    case None => 0
    case Some(l) => 1 + Rank(m, l)
  }

  /** Along the wait-for graph the awaited locks only go up. */
  lemma WaitsGoUp(m: Machine, s: State, t: nat, u: nat)
    requires Inv(m, s) && WaitsFor(m, s, t, u) && Wants(m, s.pc[u]).Some?
    ensures Awaits(m, s, t) < Awaits(m, s, u)
  {
    Owns(m, s, u);
    var l := Wants(m, s.pc[t]).value;
    assert l in Held(m, s.pc[u]);
    RankOrder(m, s.pc[u].first, s.pc[u].second);
  }

  /** path leads through the wait-for graph. */
  predicate WaitPath(m: Machine, s: State, path: seq<nat>)
    requires Shaped(m, s)
  {
    |path| >= 2 && forall i | 0 < i < |path| :: WaitsFor(m, s, path[i - 1], path[i])
  }

  lemma {:induction false} PathGoesUp(m: Machine, s: State, path: seq<nat>, i: nat)
    requires Inv(m, s) && WaitPath(m, s, path) && 0 < i < |path| && path[i] < |s.pc| && Wants(m, s.pc[path[i]]).Some?
    ensures path[0] < |s.pc| && Awaits(m, s, path[0]) < Awaits(m, s, path[i])
  {
    hide Rank, Wants;
    assert WaitsFor(m, s, path[i - 1], path[i]);
    WaitsGoUp(m, s, path[i - 1], path[i]);
    if i > 1 { PathGoesUp(m, s, path, i - 1); }
  }

  /** In no reachable state does a thread wait for itself through any number of others. */
  lemma WaitForIsAcyclic(m: Machine, ss: seq<State>, turns: seq<Turn>, i: nat, path: seq<nat>)
    requires Run(m, ss, turns) && i < |ss| && Shaped(m, ss[i]) && WaitPath(m, ss[i], path)
    ensures path[0] != path[|path| - 1]
  {
    RunKeeps(m, ss, turns, i);
    hide Run, Inv, Shaped;
    assert WaitsFor(m, ss[i], path[1 - 1], path[1]);
    if path[0] == path[|path| - 1] { PathGoesUp(m, ss[i], path, |path| - 1); }
  }

  /** From a blocked thread the wait-for graph leads to one that can go on. */
  lemma {:induction false} ChainEnds(m: Machine, s: State, t: nat) returns (u: nat)
    requires Inv(m, s) && t < |s.pc|
    ensures u < |s.pc| && (Wants(m, s.pc[u]).Some? ==> Free(s, Wants(m, s.pc[u]).value))
    ensures s.pc[t].Outside? || !s.pc[u].Outside?
    decreases |m.core| * |m.core| + 1 - Awaits(m, s, t)
  {
    u := t;
    var w := Wants(m, s.pc[t]);
    assert PcOk(m, s.pc[t]);
    if w.Some? && !Free(s, w.value) {
      var v := s.owner[w.value];
      assert WaitsFor(m, s, t, v) && w.value in Held(m, s.pc[v]);
      if Wants(m, s.pc[v]).Some? {
        WaitsGoUp(m, s, t, v);
        RankBound(m, Wants(m, s.pc[v]).value);
        u := ChainEnds(m, s, v);
      } else {
        u := v;
      }
    }
  }

  /**
   No reachable state is a deadlock: as long as any thread is inside these functions or holds
   a lock, some such thread can take a step.
   */
  lemma SomeoneCanStep(m: Machine, ss: seq<State>, turns: seq<Turn>, i: nat, t: nat) returns (u: nat, e: Event)
    requires Run(m, ss, turns) && i < |ss| && Shaped(m, ss[i]) && t < |ss[i].pc| && !ss[i].pc[t].Outside?
    ensures Enabled(m, ss[i], u, e) && !ss[i].pc[u].Outside?
  {
    RunKeeps(m, ss, turns, i);
    var s := ss[i];
    u := ChainEnds(m, s, t);
    assert PcOk(m, s.pc[u]);
    hide Inv, Run, Shaped, MachineOk, Lockp;
    match s.pc[u]
    case HasOne(_) => e := Unlock;
    case Unlocking(_) => e := Unlock;
    case HasBoth(a, b) => e := DoubleUnlock(a, b);
    case TryFailed(_, _) => e := AfterTry;
    case _ => e := Acquire;
  }

  // ---------------------------------------------------------------- what each step is for

  /** rq_order_less: the runqueue of the lower core comes first, on one core that of the lower CPU. */
  lemma OrderIsByCoreThenCpu(m: Machine, a: nat, b: nat)
    requires MachineOk(m) && Cpu(m, a) && Cpu(m, b)
    ensures m.core[a] < m.core[b] ==> OrderLess(m, a, b) && !OrderLess(m, b, a)
    ensures m.core[a] == m.core[b] ==> (OrderLess(m, a, b) <==> a < b)
    ensures Lockp(m, a) == Lockp(m, b) <==> a == b || (m.coreEnabled && m.core[a] == m.core[b])
  {
  }

  /** The thread is on its way to the two runqueues, or has them. */
  predicate For(pc: Pc, a: nat, b: nat) {
    match pc
    case WantFirst(x, y) => (x == a && y == b) || (x == b && y == a)
    case WantSecond(x, y) => (x == a && y == b) || (x == b && y == a)
    case HasBoth(x, y) => (x == a && y == b) || (x == b && y == a)
    case TryFailed(x, y) => x == a && y == b
    case _ => false
  }

  /**
   double_rq_lock goes for its two runqueues, the lesser first; _double_lock_balance for the
   one it has and the other, at once if that lock is shared or free, and giving up the first
   unless it is the lesser. What a thread goes for stays the same until it has both.
   */
  lemma StepGoal(m: Machine, s: State, t: nat, e: Event)
    requires Inv(m, s) && Enabled(m, s, t, e)
    ensures t < |s.pc| && |Next(m, s, t, e).pc| == |s.pc|
    ensures var pc, pc' := s.pc[t], Next(m, s, t, e).pc[t];
            match e
            case Lock(a) => pc' == WantOne(a)
            case Unlock => pc' == Outside
            case DoubleLock(a, b) => pc'.WantFirst? && For(pc', a, b) && !OrderLess(m, pc'.second, pc'.first)
            case Acquire =>
              if pc.WantOne? then pc' == HasOne(pc.rq)
              else
                && For(pc', pc.first, pc.second)
                && (pc'.HasBoth? <==> pc.WantSecond? || Lockp(m, pc.first) == Lockp(m, pc.second))
            case DoubleUnlock(a, b) => pc' == Unlocking(a) && For(pc, a, b)
            case UnlockBalance(a, b) => pc' == HasOne(a) && For(pc, a, b)
            case LockBalance(b) =>
              && pc.HasOne? && For(pc', pc.rq, b)
              && (pc'.HasBoth? <==> !m.preemption && (Lockp(m, pc.rq) == Lockp(m, b) || Free(s, Lockp(m, b))))
            case AfterTry =>
              && pc.TryFailed? && For(pc', pc.this_, pc.busiest)
              && (pc'.WantSecond? <==> OrderLess(m, pc.this_, pc.busiest))
              && (pc'.WantSecond? ==> pc'.first == pc.this_)
              && (!pc'.WantSecond? ==> pc'.WantFirst?)
  {
    Owns(m, s, t);
    hide Inv, Shaped, OwnersMatch, Lockp;
  }

  /** A thread that went for two runqueues and has them holds exactly their locks. */
  lemma HasBothLocks(m: Machine, s: State, t: nat, a: nat, b: nat)
    requires Inv(m, s) && t < |s.pc| && s.pc[t].HasBoth? && For(s.pc[t], a, b)
    ensures Cpu(m, a) && Cpu(m, b) && (set l | l in s.owner && s.owner[l] == t) == {Lockp(m, a), Lockp(m, b)}
  {
    HoldsWhatItTook(m, s, t);
    assert PcOk(m, s.pc[t]);
  }
}
