/**
 What each step of the affinity protocol does to the task: which step sets which field, and
 to what. Stated event by event, apart from the way the steps are put together.
 */
module AffinityEffects {
  import opened Wrappers
  import opened Affinity

  /** The call passes every test of __set_cpus_allowed_ptr_locked. */
  predicate Accepted(s: State, e: Event)
    requires e.SetAffinity?
  {
    && e.newMask <= s.possible && !(e.check && s.noSetAffinity)
    && !(e.onSelf && s.task.disabled > 0 && s.task.cpu !in e.newMask && s.task.mask != e.newMask)
    && e.newMask * s.online != {}
  }

  /** The call asks for a change of mask, and gets it. */
  predicate Changes(s: State, e: Event) {
    e.SetAffinity? && Accepted(s, e) && s.task.mask != e.newMask
  }

  lemma EnableSectionTask(s: State, dest: Cpu)
    requires Inv(s) && Enabled(s, MigrateEnable(dest))
    ensures var t := s.task;
            EnableSection(s, dest).s.task ==
            if t.disabled > 1 then t.(disabled := t.disabled - 1)
            else if t.ptr.OwnMask? then t.(disabled := 0)
            else t.(ptr := OwnMask, enabling := true, pending := EnableSection(s, dest).s.task.pending)
  {
    assert NoneLost(s) && TaskOk(s);
    hide ReqsOk, PhasesOk, SignalsOk, WorksOk;
    StepSafe(s, MigrateEnable(dest));
  }

  lemma AffineMoveMask(s: State, who: Option<Caller>, dest: Cpu)
    ensures var o := AffineMove(s, who, dest); o.UseAfterFree? || o.s.task.mask == s.task.mask
  {
  }

  lemma SetAffinityMask(s: State, e: Event)
    requires e.SetAffinity? && Enabled(s, e)
    ensures var o := Next(s, e);
            && (o.UseAfterFree? || o.s.task.mask == if Accepted(s, e) then e.newMask else s.task.mask)
            && (!Changes(s, e) ==> o == Done(s))
  {
    AffineMoveMask(s.(task := s.task.(mask := e.newMask)), Some(e.c), e.dest);
    hide AffineMove;
  }

  /**
   The mask of an accepted call is stored as it is; a refused call changes nothing; no other
   step touches the mask.
   */
  lemma MaskEffect(s: State, e: Event)
    requires Inv(s) && Enabled(s, e)
    ensures !Next(s, e).UseAfterFree?
    ensures Next(s, e).s.task.mask == if e.SetAffinity? && Accepted(s, e) then e.newMask else s.task.mask
    ensures e.SetAffinity? && !Changes(s, e) ==> Next(s, e) == Done(s)
  {
    hide Inv, StopperSection, EnableSection, SetCpusAllowed, Accepted;
    StepSafe(s, e);
    if e.MigrateEnable? { EnableSectionTask(s, e.dest); }
    if e.StopperRun? { StopperCases(s, e.k); }
    if e.SetAffinity? { SetAffinityMask(s, e); }
  }

  /** An installed request is alive and not done. */
  predicate PendingAlive(s: State) {
    s.task.pending.Some? ==> s.task.pending.value in s.reqs && !s.reqs[s.task.pending.value].done
  }

  lemma PendingIsAlive(s: State)
    requires Inv(s)
    ensures PendingAlive(s)
  {
    if s.task.pending.Some? { assert ReqOk(s, s.task.pending.value); }
  }

  /** What affine_move_task leaves of the task, and where it leaves its caller. */
  predicate Served(s: State, s': State, c: Caller, dest: Cpu) {
    var t, t' := s.task, s'.task;
    && t'.run == t.run && t'.disabled == t.disabled && t'.ptr == t.ptr && t'.enabling == t.enabling
    && t'.cpu == (if t.cpu !in t.mask && t.run.Queued? && t.disabled == 0 then dest else t.cpu)
    && (t.cpu in t.mask <==> c !in s'.phases)
    && (t.cpu !in t.mask ==>
          && !s'.phases[c].Draining? && s'.phases[c].req in s'.reqs
          && var r := s'.phases[c].req;
             && s'.reqs[r].dest == dest && !s'.reqs[r].done
             && (r in s'.signals || t'.pending == Some(r))
             && (t'.pending == Some(r) || t'.cpu == dest || t'.run.Blocked?))
  }

  lemma PuntServes(s: State, c: Caller, dest: Cpu)
    requires PendingAlive(s) && c !in s.phases && s.task.cpu !in s.task.mask
    requires s.task.run.Running? || s.task.run.Waking?
    ensures var o := AffineMove(s, Some(c), dest); o.Done? && Served(s, o.s, c, dest)
  {
  }

  /** The joined request of a task that stays where it is. */
  lemma JoinServes(s: State, c: Caller, dest: Cpu)
    requires PendingAlive(s) && c !in s.phases
    ensures var s1 := InstallOrJoin(s, c, dest);
            && s1.task.pending.Some? && s1.task.pending.value in s1.reqs
            && s1.reqs[s1.task.pending.value].dest == dest && !s1.reqs[s1.task.pending.value].done
            && s1.task == s.task.(pending := s1.task.pending) && s1.phases == s.phases && s1.works == s.works
            && s1.signals == s.signals
  {
  }

  lemma MoveServes(s: State, c: Caller, dest: Cpu)
    requires PendingAlive(s) && c !in s.phases && s.task.cpu !in s.task.mask
    requires s.task.run.Queued? || s.task.run.Blocked?
    ensures var o := AffineMove(s, Some(c), dest); o.Done? && Served(s, o.s, c, dest)
  {
    JoinServes(s, c, dest);
    hide InstallOrJoin;
    var s1 := InstallOrJoin(s, c, dest);
    var r := s1.task.pending.value;
    var s' := MoveIfAllowed(s1, r, c, dest);
    assert AffineMove(s, Some(c), dest) == Done(s');
    hide AffineMove;
    assert s'.phases[c] == Waiting(r) && s'.reqs == s1.reqs;
  }

  lemma AllowedServes(s: State, c: Caller, dest: Cpu)
    requires PendingAlive(s) && c !in s.phases && s.task.cpu in s.task.mask
    ensures var o := AffineMove(s, Some(c), dest); o.Done? && Served(s, o.s, c, dest)
  {
  }

  /**
   An accepted change. If the task's CPU is allowed the caller returns at once. Otherwise it
   waits for a request that knows the destination it was given; a queued task that may move
   is moved there, and unless that is done, or the task is asleep, the request is installed.
   */
  lemma ChangeEffect(s: State, e: Event)
    requires Inv(s) && Enabled(s, e) && Changes(s, e)
    ensures Next(s, e).Done?
    ensures Served(s.(task := s.task.(mask := e.newMask)), Next(s, e).s, e.c, e.dest)
  {
    PendingIsAlive(s);
    hide Inv, AffineMove, Served;
    var s1 := s.(task := s.task.(mask := e.newMask));
    if s1.task.cpu in s1.task.mask {
      AllowedServes(s1, e.c, e.dest);
    } else if s1.task.run.Running? || s1.task.run.Waking? {
      PuntServes(s1, e.c, e.dest);
    } else {
      MoveServes(s1, e.c, e.dest);
    }
  }

  /** Where the stopper puts a task: only one that is queued on its CPU, may move and must not stay. */
  predicate StopperMoves(s: State, k: nat)
    requires k < |s.works| && !s.works[k].ToQueue? && s.works[k].req in s.reqs
  {
    var t, dest := s.task, s.reqs[s.works[k].req].dest;
    && t.cpu == s.works[k].cpu && t.cpu !in t.mask && t.run.Queued? && t.disabled == 0
    && dest in t.EffectiveMask() && dest in s.online
  }

  /** Which step moves the task, and where. */
  lemma CpuEffect(s: State, e: Event)
    requires Inv(s) && Enabled(s, e) && !e.SetAffinity?
    ensures !Next(s, e).UseAfterFree?
    ensures match e
            case WakeUp(cpu) => Next(s, e).s.task.cpu == cpu
            case Balance(cpu) => Next(s, e).s.task.cpu == cpu
            case StopperRun(k) =>
              && !s.works[k].ToQueue? && s.works[k].req in s.reqs
              && Next(s, e).s.task.cpu == if StopperMoves(s, k) then s.reqs[s.works[k].req].dest else s.task.cpu
            case _ => Next(s, e).s.task.cpu == s.task.cpu
  {
    StepSafe(s, e);
    if e.MigrateEnable? { EnableSectionTask(s, e.dest); }
    if e.StopperRun? { StopperCases(s, e.k); }
    hide Inv, StopperSection, EnableSection;
  }

  /** Which step makes the task run, stop, wake or be queued. */
  lemma RunEffect(s: State, e: Event)
    requires Inv(s) && Enabled(s, e)
    ensures !Next(s, e).UseAfterFree?
    ensures Next(s, e).s.task.run ==
            match e
            case SwitchIn => Running
            case SwitchOut(kind) => if kind.Preempt? then Queued else if kind.Sleep? then Blocked else Waking
            case WakeUp(_) => Waking
            case Activate => Queued
            case StopperFlush(k) => if s.task.run.Waking? && s.task.cpu == s.works[k].cpu then Queued else s.task.run
            case _ => s.task.run
  {
    StepSafe(s, e);
    if e.MigrateEnable? { EnableSectionTask(s, e.dest); }
    if e.StopperRun? { StopperCases(s, e.k); }
    if Changes(s, e) { ChangeEffect(s, e); } else if e.SetAffinity? { MaskEffect(s, e); }
    hide Inv, StopperSection, EnableSection, SetCpusAllowed;
  }

  /**
   Migrate-disable regions nest: each disable counts up, each enable down; the outermost
   enable of a task that was switched out inside gives it back its own mask and takes effect
   with the store that follows. Being switched out inside a region pins the task to its CPU.
   */
  lemma RegionEffect(s: State, e: Event)
    requires Inv(s) && Enabled(s, e)
    ensures !Next(s, e).UseAfterFree?
    ensures var t, t' := s.task, Next(s, e).s.task;
            match e
            case MigrateDisable => t'.disabled == t.disabled + 1 && t'.ptr == t.ptr && !t'.enabling
            case MigrateEnable(_) =>
              if t.disabled > 1 || t.ptr.OwnMask? then t'.disabled == t.disabled - 1 && t'.ptr == t.ptr && !t'.enabling
              else t'.disabled == 1 && t'.ptr == OwnMask && t'.enabling
            case EnableFinish => t'.disabled == 0 && t'.ptr == t.ptr && !t'.enabling
            case SwitchOut(_) =>
              && t'.disabled == t.disabled && t'.enabling == t.enabling
              && t'.ptr == if t.disabled > 0 then PinnedTo(t.cpu) else OwnMask
            case _ => t'.disabled == t.disabled && t'.ptr == t.ptr && t'.enabling == t.enabling
  {
    StepSafe(s, e);
    assert TaskOk(s);
    if e.MigrateEnable? { EnableSectionTask(s, e.dest); }
    if e.StopperRun? { StopperCases(s, e.k); }
    if Changes(s, e) { ChangeEffect(s, e); } else if e.SetAffinity? { MaskEffect(s, e); }
    hide Inv, StopperSection, EnableSection, SetCpusAllowed;
  }

  /**
   Where a stopper work goes: a change sends it to the CPU the task is on, unless one is on
   its way already; a work put off until the locks are dropped goes to the CPU it was meant
   for, or after a chase to wherever the task is then; the stopper keeps its work only to
   chase.
   */
  lemma WorkEffect(s: State, e: Event)
    requires Inv(s) && Enabled(s, e)
    ensures !Next(s, e).UseAfterFree?
    ensures var ws, ws' := s.works, Next(s, e).s.works;
            match e
            case SetAffinity(c, _, _, _, _) =>
              ws' == ws || (ws == [] && |ws'| == 1 && ws'[0].ToQueue? &&
                            ws'[0].kicker == ByCaller(c) && ws'[0].target == Some(s.task.cpu))
            case MigrateEnable(_) =>
              ws' == ws || (ws == [] && |ws'| == 1 && ws'[0].ToQueue? &&
                            ws'[0].kicker == ByTask && ws'[0].target == Some(s.task.cpu))
            case QueueWork(k) =>
              k < |ws| && ws[k].ToQueue? &&
              ws' == [OnStopper(ws[k].req, if ws[k].target.Some? then ws[k].target.value else s.task.cpu)]
            case StopperFlush(k) => k < |ws| && ws[k].OnStopper? && ws' == [Flushed(ws[k].req, ws[k].cpu)]
            case StopperRun(k) =>
              k < |ws| && ws[k].Flushed? &&
              ws' == if s.task.cpu == ws[k].cpu || s.task.cpu in s.task.EffectiveMask() then []
                     else [ToQueue(ws[k].req, ByStopper, None)]
            case _ => ws' == ws
  {
    OneWork(s);
    hide Inv, StopperSection, AffineMove;
    StepSafe(s, e);
    OneWork(Next(s, e).s);
    if e.StopperRun? { StopperCases(s, e.k); }
    if e.SetAffinity? { AffineMoveWorks(s.(task := s.task.(mask := e.newMask)), Some(e.c), e.dest); }
    if e.MigrateEnable? { AffineMoveWorks(s.(task := s.task.(ptr := OwnMask, enabling := true)), None, e.dest); }
  }

  lemma OneWork(s: State)
    requires Inv(s)
    ensures |s.works| <= 1
  {
  }

  lemma AffineMoveWorks(s: State, who: Option<Caller>, dest: Cpu)
    ensures var o := AffineMove(s, who, dest);
            o.UseAfterFree? || o.s.works == s.works ||
            (|o.s.works| == |s.works| + 1 && o.s.works[..|s.works|] == s.works &&
             var w := o.s.works[|s.works|];
             w.ToQueue? && w.target == Some(s.task.cpu) &&
             w.kicker == (if who.Some? then ByCaller(who.value) else ByTask))
  {
  }
}
