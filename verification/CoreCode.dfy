/**
 pick_next_task under CONFIG_SCHED_CORE as the code runs it (kernel/sched/core.c), updating
 the runqueues of a core in place, shown to be a Schedule step of CoreSeq. Its warnings
 about a missing or an incompatible pick stand as assertions.
 */
module CoreCode {
  import opened Wrappers
  import opened CorePick
  import opened CoreEnds
  import opened CoreSeq

  class Siblings {
    var sibs: seq<Sibling>
    var curr: seq<Task>
    var pick: seq<Option<Task>>
    var resched: seq<bool>
    var schedSeq: seq<nat>
    var cookie: nat
    var forceIdle: bool
    var taskSeq: nat
    var pickSeq: nat
    ghost var chosenFrom: seq<Sibling>
    ghost var chosen: seq<Task>

    ghost function State(): Core
      reads this
    {
      Core(sibs, curr, pick, resched, schedSeq, cookie, forceIdle, taskSeq, pickSeq, chosenFrom, chosen)
    }

    /**
     after is the core as put_prev_task_balance leaves it: it may drop the lock, and the
     siblings go on meanwhile.
     */
    method PickNextTask(cpu: nat, after: Core) returns (next: Task)
      requires Shaped(State()) && cpu < |sibs| && Shaped(after) && |after.sibs| == |sibs|
      requires Alone(after, cpu) || !Endless(From(after.sibs, cpu))
      modifies this
      ensures if FastPath(old(State()), cpu) then State() == TakeCached(old(State()), cpu)
          else PickedAnew(after, cpu, State())
      ensures |curr| == |after.sibs| && next == curr[cpu]
      ensures FastPath(old(State()), cpu) ==> old(pick[cpu]) == Some(next)
      ensures !FastPath(old(State()), cpu) ==>
                && FromQueue(after.sibs[cpu], next)
                && (pickSeq != taskSeq ==> RunsBest(after.sibs[cpu], next) && next.cookie == 0)
    {
      if pickSeq == taskSeq && pickSeq != schedSeq[cpu] && pick[cpu].Some? {
        next := pick[cpu].value;
        schedSeq, curr, resched := schedSeq[cpu := pickSeq], curr[cpu := next], resched[cpu := false];
        pick := pick[cpu := None];
        return;
      }
      PutPrevTaskBalance(after);
      next := PickAnew(cpu);
    }

    method PutPrevTaskBalance(after: Core)
      modifies this
      ensures State() == after
    {
      sibs, curr, pick, resched, schedSeq := after.sibs, after.curr, after.pick, after.resched, after.schedSeq;
      cookie, forceIdle, taskSeq, pickSeq := after.cookie, after.forceIdle, after.taskSeq, after.pickSeq;
      chosenFrom, chosen := after.chosenFrom, after.chosen;
    }

    /** The rest of pick_next_task. */
    method PickAnew(cpu: nat) returns (next: Task)
      requires Shaped(State()) && cpu < |sibs| && (Alone(State(), cpu) || !Endless(From(sibs, cpu)))
      modifies this
      ensures PickedAnew(old(State()), cpu, State()) && |curr| == old(|sibs|) && next == curr[cpu]
      ensures FromQueue(old(sibs[cpu]), next)
      ensures pickSeq != taskSeq ==> RunsBest(old(sibs[cpu]), next) && next.cookie == 0
    {
      CoreSibling(sibs, cpu);
      TopRunsBest(sibs[cpu]);
      hide CoreOk, Endless, Selected, AllServed, IsOutcome, Top, Same, Apply, SiblingOk, From, FromQueue, RunsBest;
      ghost var c := State();
      var needSync, fiBefore := cookie != 0, false;
      cookie := 0;
      if forceIdle {
        needSync, fiBefore, forceIdle := true, true, false;
      }
      taskSeq := taskSeq + 1;
      if !needSync {
        next := HighestClassPick(cpu);
        if next.cookie == 0 {
          assert !fiBefore;
          pick, curr, resched := pick[cpu := None], curr[cpu := next], resched[cpu := false];
          return;
        }
      }
      assert !Alone(c, cpu);
      ghost var sel := SelectForCore(cpu, c);
      next := curr[cpu];
    }

    /** The selection for the whole core; task_seq has been advanced past its value in c. */
    method SelectForCore(cpu: nat, ghost c: Core) returns (ghost sel: Sel)
      requires Shaped(c) && cpu < |c.sibs| && !Endless(From(c.sibs, cpu))
      requires State() == c.(cookie := cookie, forceIdle := forceIdle, taskSeq := c.taskSeq + 1)
      modifies this
      ensures IsOutcome(From(c.sibs, cpu), sel) && SelFits(c, sel) && State() == Apply(c, cpu, sel)
      ensures |curr| == |c.sibs| && FromQueue(c.sibs[cpu], curr[cpu]) && pickSeq == taskSeq
    {
      hide CoreOk, Endless, Selected, AllServed, AllFair, IsOutcome, FromQueue, Same, CookieMatch;
      hide Chosen, From, BackFrom, Apply;
      FromOk(sibs, cpu);
      var slots := new Option<Task>[|sibs|];
      var occ;
      cookie, occ, forceIdle, sel := SelectCore(From(sibs, cpu), slots);
      SelectedFits(c, cpu, sel);
      ChosenFacts(c, cpu, sel);
      pick := BackFrom(slots[..], cpu);
      chosenFrom, chosen := sibs, Chosen(c, cpu, sel);
      pickSeq := taskSeq;
      assert pick[cpu].Some?;
      var next := pick[cpu].value;
      schedSeq := schedSeq[cpu := pickSeq];
      ReschedSiblings(cpu, next);
      curr, resched := curr[cpu := next], resched[cpu := false];
      ApplyIs(c, cpu, sel, pick, resched);
    }

    /** The first class with a runnable task, asked in order. */
    method HighestClassPick(cpu: nat) returns (next: Task)
      requires cpu < |sibs| && SiblingOk(sibs[cpu])
      ensures next == Top(sibs[cpu])
    {
      var k: nat := 0;
      var p := None;
      while k <= IDLE && p.None?
        invariant k <= IDLE + 1
        invariant match p
                  case None => k <= IDLE && NothingBefore(sibs[cpu], k)
                  case Some(t) => t == Top(sibs[cpu])
      {
        ClassPickIsTop(sibs[cpu], k);
        p := ClassPick(sibs[cpu], k);
        k := k + 1;
      }
      next := p.value;
    }

    /** Tell every other sibling to run its pick, unless it does so already. */
    method ReschedSiblings(cpu: nat, next: Task)
      requires |curr| == |pick| == |resched| == |sibs| && cpu < |sibs|
      requires forall i | 0 <= i < |sibs| :: pick[i].Some? && CookieMatch(next, pick[i].value)
      modifies this`pick, this`resched
      ensures |pick| == |resched| == |sibs| && pick[cpu].None? && resched[cpu] == old(resched[cpu])
      ensures forall i | 0 <= i < |sibs| && i != cpu :: var p := old(pick[i]).value;
                pick[i] == (if Same(curr[i], p) then None else Some(p)) &&
                    resched[i] == (old(resched[i]) || !Same(curr[i], p))
    {
      for i := 0 to |sibs|
        invariant |pick| == |resched| == |sibs|
        invariant forall x | i <= x < |sibs| :: pick[x] == old(pick[x]) && resched[x] == old(resched[x])
        invariant forall x | 0 <= x < i && x != cpu :: var p := old(pick[x]).value;
                    pick[x] == (if Same(curr[x], p) then None else Some(p)) &&
                        resched[x] == (old(resched[x]) || !Same(curr[x], p))
        invariant cpu < i ==> pick[cpu].None?
        invariant resched[cpu] == old(resched[cpu])
      {
        if pick[i].None? {
          continue;
        }
        if i == cpu {
          pick := pick[i := None];
          continue;
        }
        assert CookieMatch(next, pick[i].value);
        if Same(curr[i], pick[i].value) {
          pick := pick[i := None];
          continue;
        }
        resched := resched[i := true];
      }
    }
  }

  /** Apply, put together from its parts. */
  lemma ApplyIs(c: Core, j: nat, sel: Sel, pick: seq<Option<Task>>, resched: seq<bool>)
    requires Shaped(c) && j < |c.sibs| && SelFits(c, sel) && |pick| == |resched| == |c.sibs|
    requires pick[j].None? && !resched[j]
    requires forall i | 0 <= i < |c.sibs| && i != j :: var p := Chosen(c, j, sel)[i];
               pick[i] == (if Same(c.curr[i], p) then None else Some(p)) &&
                   resched[i] == (c.resched[i] || !Same(c.curr[i], p))
    ensures Apply(c, j, sel) ==
            Core(c.sibs, c.curr[j := Chosen(c, j, sel)[j]], pick, resched, c.schedSeq[j := c.taskSeq + 1],
                 sel.cookie, sel.forceIdle, c.taskSeq + 1, c.taskSeq + 1, c.sibs, Chosen(c, j, sel))
  {
    hide Chosen, Same, CoreOk;
    var c' := Apply(c, j, sel);
    assert pick == c'.pick;
    assert resched == c'.resched;
  }

  /** The picks in the siblings' order are the chosen ones and pairwise compatible. */
  lemma SelectedFits(c: Core, j: nat, sel: Sel)
    requires Shaped(c) && j < |c.sibs| && Selected(From(c.sibs, j), sel)
    ensures SelFits(c, sel)
    ensures var picks := BackFrom(sel.picks, j);
            && |picks| == |c.sibs|
            && (forall i | 0 <= i < |c.sibs| ::
                  picks[i] == Some(Chosen(c, j, sel)[i]) && CookieMatch(picks[j].value, picks[i].value))
  {
    var n, p := |c.sibs|, Chosen(c, j, sel);
    var picks := BackFrom(sel.picks, j);
    hide Chosen;
    forall i | 0 <= i < n ensures picks[i] == Some(p[i]) && CookieMatch(sel.picks[0].value, picks[i].value) {
      ChosenAt(c, j, sel, i);
      var x := if i < j then n - j + i else i - j;
      assert picks[i] == sel.picks[x];
    }
  }
}
