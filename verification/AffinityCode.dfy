/**
 The lock sections of the affinity protocol as the code writes them: fields of one task
 and of the shared requests updated in place. Each method ends in exactly the state its
 step in module Affinity gives, so what is proved of every run there holds of this code.
 */
module AffinityCode {
  import opened Wrappers
  import opened Errno
  import opened Affinity
  import opened AffinityEffects

  /** The target task, the requests on its callers' stacks, and the calls made after unlock. */
  class Target {
    const online: set<Cpu>
    const possible: set<Cpu>
    const noSetAffinity: bool
    var cpu: Cpu
    var mask: set<Cpu>
    var ptr: MaskPtr
    var disabled: nat
    var enabling: bool
    var run: RunState
    var pending: Option<Caller>
    var reqs: map<Caller, Req>
    var phases: map<Caller, Phase>
    var works: seq<Work>
    var signals: seq<Caller>

    ghost function View(): State
      reads this
    {
      State(online, possible, noSetAffinity, Task(cpu, mask, ptr, disabled, enabling, run, pending), reqs, phases,
          works, signals)
    }

    /** *p->cpus_ptr */
    function EffectiveMask(): set<Cpu>
      reads this
    {
      if ptr.OwnMask? then mask else {ptr.cpu}
    }

    constructor (online: set<Cpu>, possible: set<Cpu>, noSetAffinity: bool, cpu: Cpu, mask: set<Cpu>, run: RunState)
      requires cpu in mask * online && mask <= possible
      ensures Init(View()) && View().task.mask == mask
    {
      this.online, this.possible, this.noSetAffinity := online, possible, noSetAffinity;
      this.cpu, this.mask, this.run := cpu, mask, run;
      ptr, disabled, enabling, pending := OwnMask, 0, false, None;
      reqs, phases, works, signals := map[], map[], [], [];
    }

    /** affine_move_task for a task that is running or waking: leave it to its CPU's stopper. */
    method PuntTask(r: Caller, who: Option<Caller>)
      requires r in reqs
      modifies this
      ensures View() == PuntToStopper(old(View()), r, who)
    {
      var stopPending := reqs[r].stopPending;
      if !stopPending {
        reqs := reqs[r := reqs[r].(stopPending := true)];
        works := works + [ToQueue(r, if who.Some? then ByCaller(who.value) else ByTask, Some(cpu))];
      }
      if who.Some? {
        phases := phases[who.value := if stopPending then Waiting(r) else Kicking(r)];
      }
    }

    /** affine_move_task for a task that is neither: move it here and now if that is allowed. */
    method MoveTask(r: Caller, c: Caller, dest: Cpu)
      requires r in reqs
      modifies this
      ensures View() == MoveIfAllowed(old(View()), r, c, dest)
    {
      if disabled == 0 {
        if run.Queued? {
          cpu := dest;
        }
        if !reqs[r].stopPending {
          pending := None;
          signals := signals + [r];
        }
      }
      phases := phases[c := Waiting(r)];
    }

    /** affine_move_task up to wait_for_completion; who is None for migrate_enable. */
    method AffineMoveTask(who: Option<Caller>, dest: Cpu) returns (ret: int)
      requires pending.Some? ==> pending.value in reqs
      modifies this
      ensures var o := AffineMove(old(View()), who, dest);
              !o.UseAfterFree? && View() == o.s && ret == if o.Warned? then -EINVAL else 0
    {
      hide PuntToStopper, MoveIfAllowed;
      if cpu in mask {
        if pending.Some? && !reqs[pending.value].stopPending {
          var done := pending.value;
          pending := None;
          signals := signals + [done];
        }
        return 0;
      }
      if who.Some? {
        if pending.None? {
          reqs := reqs[who.value := Req(1, false, false, dest)];
          pending := who;
        } else {
          var q := reqs[pending.value];
          reqs := reqs[pending.value := q.(refs := q.refs + 1, dest := dest)];
        }
      }
      if pending.None? {
        return -EINVAL;
      }
      if run.Running? || run.Waking? || who.None? {
        PuntTask(pending.value, who);
      } else {
        MoveTask(pending.value, who.value, dest);
      }
      return 0;
    }

    /** __set_cpus_allowed_ptr_locked for a caller that is not migrate_enable. */
    method SetCpusAllowedLocked(c: Caller, newMask: set<Cpu>, dest: Cpu, onSelf: bool, check: bool) returns (ret: int)
      requires Inv(View()) && Enabled(View(), SetAffinity(c, newMask, dest, onSelf, check))
      modifies this
      ensures var o := Next(old(View()), SetAffinity(c, newMask, dest, onSelf, check)); o.Done? && View() == o.s
      ensures ret == if !(newMask <= possible) || (check && noSetAffinity) then -EINVAL
                     else if old(mask) == newMask then 0
                     else if onSelf && old(disabled) > 0 && old(cpu) !in newMask then -EBUSY
                     else if newMask * online == {} then -EINVAL else 0
      ensures ret == 0 ==> mask == newMask
      ensures ret != 0 ==> View() == old(View())
      ensures ret == 0 && old(mask) != newMask && run.Queued? && disabled == 0 ==> cpu in newMask
      ensures Inv(View())
    {
      ghost var before := View();
      StepSafe(before, SetAffinity(c, newMask, dest, onSelf, check));
      SetAffinityKeeps(before, c, newMask, dest, onSelf, check);
      MaskEffect(before, SetAffinity(c, newMask, dest, onSelf, check));
      if Changes(before, SetAffinity(c, newMask, dest, onSelf, check)) {
        ChangeEffect(before, SetAffinity(c, newMask, dest, onSelf, check));
      }
      hide ReqsOk, PhasesOk, SignalsOk, WorksOk, AffineMove;
      if !(newMask <= possible) {
        return -EINVAL;
      }
      if check && noSetAffinity {
        return -EINVAL;
      }
      if mask == newMask {
        return 0;
      }
      if onSelf && disabled > 0 && cpu !in newMask {
        return -EBUSY;
      }
      if newMask * online == {} {
        return -EINVAL;
      }
      mask := newMask;
      ret := AffineMoveTask(Some(c), dest);
    }

    /** Leave migration_cpu_stop: the work is over, and the request too if complete. */
    method StopperOut(k: nat, complete: bool)
      requires k < |works| && works[k].Flushed? && works[k].req in reqs
      modifies this
      ensures var s := SetStopPending(DropWork(old(View()), k), old(works)[k].req, false);
              View() == if complete then Uninstall(s, old(works)[k].req) else s
    {
      var r := works[k].req;
      works := works[..k] + works[k + 1..];
      reqs := reqs[r := reqs[r].(stopPending := false)];
      if complete {
        pending := None;
        signals := signals + [r];
      }
    }

    /** The lock section of migration_cpu_stop for the work at index k. */
    method MigrationCpuStop(k: nat)
      requires Inv(View()) && Enabled(View(), StopperRun(k))
      modifies this
      ensures k < |old(works)| && old(works)[k].Flushed?
      ensures var o := StopperSection(old(View()), k); o.Done? && View() == o.s
      ensures Inv(View())
    {
      StopperRunKeeps(View(), k);
      StopperCases(View(), k);
      var w := works[k];
      hide Inv, Enabled, DropWork, SetStopPending, Uninstall, StopperSection;
      var dest := reqs[w.req].dest;
      if cpu == w.cpu {
        var movable := disabled == 0 && cpu !in mask && run.Queued?;
        var allowed := dest in EffectiveMask() && dest in online;
        StopperOut(k, disabled == 0);
        if movable && allowed {
          cpu := dest;
        }
      } else if cpu in EffectiveMask() {
        StopperOut(k, true);
      } else {
        works := works[k := ToQueue(w.req, ByStopper, None)];
      }
    }
  }
}
