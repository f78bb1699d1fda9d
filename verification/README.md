# A verified model of the scheduler's hard parts

This project models parts of a Linux 5.15.180 kernel with an added scheduling class, `SCHED_LOTTERY`, and proves properties of them in Dafny 4.11: protocols over every interleaving of any number of threads, index structures kept up to date incrementally, retry loops that must end, tree walks written with `goto`, and the lottery itself. `dafny verify dfyconfig.toml` checks everything; the files have no dependencies outside this directory.

| file | part of the kernel | form |
|---|---|---|
| `LotteryQueue.dfy` | the lottery runqueue and its draw | class `LtrRq`, specified by functions; counting lemmas |
| `LotteryLife.dfy` | a task's life around the lottery class | state machine over the operations of `core.c` and `fork.c` |
| `LotteryEffects.dfy` | what each event does to the task and the lists | event by event |
| `Affinity.dfy` | the affinity-change protocol | state machine, one step per lock section |
| `AffinityEffects.dfy` | what each of its steps does to the task and the stopper works | event by event, apart from how the steps are put together |
| `AffinityRuns.dfy` | runs of that protocol | every caller can return; two runs that forget a task |
| `AffinityCode.dfy` | the same lock sections as in-place code | class `Target`, each method proved to be a step of `Affinity` |
| `UclampIndex.dfy`, `UclampRq.dfy` | utilization-clamp buckets of one runqueue | classes `ClampIndex` and `UclampRq` over arrays |
| `UclampTree.dfy` | propagation of group clamps | in-place pass over arrays in pre-order |
| `CorePick.dfy` | core-wide selection with restarts | step function and loop invariant |
| `CoreEnds.dfy` | when the selection ends, and with what | exact condition for any number of siblings; the loops as method `SelectCore` |
| `CoreSeq.dfy` | the life of a core: cached picks, sequence numbers | state machine |
| `CoreCode.dfy` | `pick_next_task` as in-place code | class `Siblings`, proved to be a step of `CoreSeq` |
| `TgWalk.dfy`, `ProcessWalk.dfy` | stackless tree walks | methods with the code's labels, proved equal to recursive walks |
| `Bandwidth.dfy` | the CFS bandwidth check | class `Hierarchy`, running on the walk of `TgWalk` |
| `RqLocks.dfy` | taking two runqueue locks | state machine over any number of threads |
| `DupMmap.dfy` | copying a process's list of memory areas | heap-linked lists, writing through a pointer to a pointer |
| `Wrappers.dfy`, `Errno.dfy`, `Arith.dfy` | `Option`, error numbers, one fact of arithmetic | |

## What the proofs found

* **Affinity, the test at `core.c:2368`.** When the stopper finds that the task has left its CPU it tests `cpus_ptr`, where the test at line 2337 uses `cpus_mask`. If the task is pinned by a migrate-disable region on a CPU that has meanwhile been forbidden, the request is completed although the task stays there. `PromiseKeptExactly` says exactly when a completion leaves the task outside the mask that was asked for. `AttendedExactly` names the two stopper sections that leave a task on a forbidden CPU with nobody asked to move it: this one, and one that meets a task just being woken onto its CPU. `ForgottenTaskRun` and `LateWakeRun` are runs in which each happens and `migrate_enable` then trips the warning at line 2719; `NoWarningUnlessForgotten` shows that there is no other way to it. The warnings at 2322, 2379 and 2776 never fire, and no caller is ever stuck for good (`EveryoneCanReturn`).
* **Core-wide selection, the comparison at `core.c:127`.** With equal deadlines `prio_less` holds both ways, and two deadline tasks with different cookies can displace each other for ever. `SelectionEndsExactly` gives the exact condition for any number of siblings, in terms of the siblings' most urgent tasks in visiting order: the selection never ends if and only if no stop task is runnable and two siblings `a` before `b` tie in their deadlines with different nonzero cookies, every deadline before `a` is later, and every one between them is later or carries `a`'s cookie. Whenever it ends it needs fewer restarts than there are siblings.
* **Core-wide selection without a core cookie.** With a nonzero final cookie each sibling runs its most urgent task with that cookie and idles only if it has none. With cookie 0 a sibling whose most urgent task has a cookie is idled even if it has other tasks without one (`OutcomeServes`).
* **Lottery, the test at `core.c:7357`.** `__sched_setscheduler` refuses every policy but `SCHED_LOTTERY`, so once in the class a task stays (`LotteryIsAbsorbing`, `SetSchedulerAcceptsExactly`).
* **Lottery, `unsigned int` counters.** The draw is fair exactly when the ticket sum stays below 2^32 (`FairExactlyBelowWrap`).
* **Bandwidth, refusals.** A refused change may leave a `hierarchical_quota` that no setting explains: exactly when the changed group itself fits under its ancestors and a group below it does not (`RefusalKeepsQuotasExactly`; `RefusalLeavesQuota` is an example). It does no harm to later checks: `CheckIsExact` holds for any values left behind.
* **Core scheduling, `core_sched_seq`.** The second test of the fast path never decides anything (`SchedSeqIsRedundant`).
* `documentation/documentation.md:49` calls lottery the lowest class. It is linked last (`include/asm-generic/vmlinux.lds.h:130-136`) and the scan over classes starts from that end (`kernel/sched/sched.h:2230-2237`), so it is asked first. No result here depends on the place of the class.

## Model

| member | source | states |
|---|---|---|
| LotteryQueue.LtrRq.constructor | linux-5.15.180/kernel/sched/lottery.c:21-32 | a new lottery runqueue is empty with zero counters |
| LotteryQueue.LtrRq.EnqueueTask | linux-5.15.180/kernel/sched/lottery.c:38-64 | the task goes to the tail; both counters grow modulo 2^32 |
| LotteryQueue.LtrRq.DequeueTask | linux-5.15.180/kernel/sched/lottery.c:70-82 | the task leaves the list, and both counters shrink modulo 2^32, whether or not the list held it |
| LotteryQueue.LtrRq.PickNextTask | linux-5.15.180/kernel/sched/lottery.c:108-161 | the scan loop with its 32-bit counter returns what the recursive scan returns for the drawn word, for every queue and every word |
| LotteryQueue.EnqueuedCounters | linux-5.15.180/kernel/sched/lottery.c:38-64 | after an enqueue of a task not on the list, counters that agreed with the list still do |
| LotteryQueue.DequeuedCounters | linux-5.15.180/kernel/sched/lottery.c:70-82 | after a dequeue of a listed task, counters that agreed with the list still do |
| LotteryQueue.ScanStopsAtOwner | linux-5.15.180/kernel/sched/lottery.c:133-148 | with a ticket sum below 2^32 the scan returns a task if and only if that task owns the drawn ticket in queue order |
| LotteryQueue.OwnerUnique | linux-5.15.180/kernel/sched/lottery.c:141-147 | a ticket has at most one owner |
| LotteryQueue.ScanInQueue | linux-5.15.180/kernel/sched/lottery.c:133-160 | whatever overflows, a non-empty list yields one of its own tasks, so the NULL test after the scan never succeeds |
| LotteryQueue.WinsExact | linux-5.15.180/kernel/sched/lottery.c:133-148 | among the first n draws a task wins exactly those of its tickets that lie below n |
| LotteryQueue.ExactShare | linux-5.15.180/kernel/sched/lottery.c:129-148 | over one round of draws each task wins exactly its ticket count |
| LotteryQueue.DrawsAreShared | linux-5.15.180/kernel/sched/lottery.c:133-160 | over any number of draws, with or without overflow, the tasks' wins sum to the number of draws |
| LotteryQueue.FairExactlyBelowWrap | linux-5.15.180/kernel/sched/lottery.c:108-148 | with the counter at the ticket sum modulo 2^32, every task wins its ticket count over one round if and only if the sum is below 2^32 |
| LotteryQueue.WordShare | linux-5.15.180/kernel/sched/lottery.c:126-148 | over all 2^32 random words a task with k tickets out of T wins k*floor(2^32/T) times plus its tickets below 2^32 mod T, hence between k*floor and k*(floor+1) times |
| LotteryQueue.WordsAreShared | linux-5.15.180/kernel/sched/lottery.c:108-161 | the wins of all tasks over all 2^32 words sum to 2^32 |
| LotteryQueue.PickIsOwner | linux-5.15.180/kernel/sched/lottery.c:126-148 | with a ticket sum T below 2^32 a random word picks a task if and only if that task owns ticket number word mod T |
| LotteryQueue.PickNobody | linux-5.15.180/kernel/sched/lottery.c:117-127 | nobody is picked exactly if the list is empty or the counter shows no tickets |
| LotteryQueue.JoinsBehind | linux-5.15.180/kernel/sched/lottery.c:52-57 | a task that joins gets the ticket numbers after all others, which keep theirs |
| LotteryQueue.LeavesGap | linux-5.15.180/kernel/sched/lottery.c:73-77 | when a task leaves, those before it keep their ticket numbers and those behind it move up by its tickets |
| LotteryLife.StepKeeps | linux-5.15.180/kernel/sched/core.c:1966-2015 | fork, wake, sleep, setscheduler, PI boost, renice, group move, migration and exit each keep lists, counters and classes in agreement and never call switched_from_lottery; what each does is stated in LotteryEffects |
| LotteryLife.RunKeeps | linux-5.15.180/kernel/sched/core.c:2230-2247 | the same for every state of every run from boot |
| LotteryLife.CountersAgree | linux-5.15.180/kernel/sched/lottery.c:38-82 | in every reachable state each runqueue's list holds exactly its queued lottery tasks, once each, nr_running is its length and total_tickets its ticket sum (modulo 2^32) |
| LotteryLife.ReachableDrawIsFair | linux-5.15.180/kernel/sched/lottery.c:108-161 | in every reachable state the draw on any CPU gives each listed task its exact share, and the scan's policy test skips nobody |
| LotteryLife.LotteryIsAbsorbing | linux-5.15.180/kernel/sched/core.c:2081-2092 | in no run does any step take a living ordinary task out of SCHED_LOTTERY or its class, and switched_from_lottery is never called |
| LotteryLife.PolicyStays | linux-5.15.180/kernel/sched/core.c:7538-7566 | one step of any kind leaves a lottery task its policy |
| LotteryLife.SetSchedulerAcceptsExactly | linux-5.15.180/kernel/sched/core.c:7340-7358 | only requests for SCHED_LOTTERY with priority 0 succeed, and, when nothing outside the model refuses, all of those with known flags do |
| LotteryLife.RequeueKeeps | linux-5.15.180/kernel/sched/core.c:7538-7560 | dequeue, change, enqueue keeps every list and counter right for any change of the task that leaves policy and class in agreement |
| LotteryLife.ChangeKeeps | linux-5.15.180/kernel/sched/core.c:6804-6819 | a change of priority or parameters that does not leave the lottery class keeps the invariant |
| LotteryEffects.ArrivalEffect | linux-5.15.180/kernel/sched/core.c:1966-2010 | a task that wakes, wakes for the first time or arrives from another CPU is queued on the given CPU; a lottery task is then the last on that CPU's list; no other task, list or field changes |
| LotteryEffects.DepartureEffect | linux-5.15.180/kernel/sched/core.c:1983-2015 | a task that sleeps or leaves for another CPU is on no list; all others keep their places; nothing else changes |
| LotteryEffects.ForkEffect | linux-5.15.180/kernel/sched/core.c:4378-4427 | a fork adds exactly the child, off every list, with five tickets, the policy and priorities that reset-on-fork leaves it, and the lottery class exactly if it has the policy; it fails exactly for a non-lottery child of deadline priority, changing nothing |
| LotteryEffects.SetSchedulerEffect | linux-5.15.180/kernel/sched/core.c:7538-7566 | a successful request leaves the task in the lottery class with the priority of the requested nice value or its top waiter, the more urgent, unless parameters are kept; only that task changes, and only its place on its list; a failure changes nothing |
| LotteryEffects.BoostEffect | linux-5.15.180/kernel/sched/core.c:6849-6960 | priority inheritance gives the task the more urgent of its normal and its donor's priority; a lottery task stays in its class |
| LotteryEffects.ReniceEffect | linux-5.15.180/kernel/sched/core.c:6973-7020 | a nice value in range becomes the static priority, the normal priority where the policy heeds it, and the priority unless that is real-time |
| LotteryEffects.GroupMoveEffect | linux-5.15.180/kernel/sched/core.c:9956-9990 | a group move changes no task; a queued lottery task goes to the tail and all others keep their places |
| Affinity.StepSafe | linux-5.15.180/kernel/sched/core.c:2294-2396 | every step of the protocol keeps the run invariant, touches no request whose owner has returned, and trips none of the warnings at 2322, 2379, 2776 |
| Affinity.AffineMoveKeeps | linux-5.15.180/kernel/sched/core.c:2639-2779 | affine_move_task called for another task keeps the invariant in all its branches and raises no warning |
| Affinity.SetAffinityKeeps | linux-5.15.180/kernel/sched/core.c:2784-2867 | the locked part of set_cpus_allowed keeps the invariant, through every error exit: a mask beyond the possible CPUs, PF_NO_SETAFFINITY, a pinned caller changing itself, no valid CPU; what it stores is stated in AffinityEffects |
| Affinity.MigrateEnableKeeps | linux-5.15.180/kernel/sched/core.c:2148-2173 | migrate_enable keeps the invariant; the only warning it can raise is the one at 2719 |
| Affinity.StopperRunKeeps | linux-5.15.180/kernel/sched/core.c:2294-2396 | the stopper's lock section keeps the invariant and raises no warning |
| Affinity.RunKeepsInv | linux-5.15.180/kernel/sched/core.c:2639-2779 | the invariant holds in every state of every run of any number of callers |
| Affinity.WarningsUnreachable | linux-5.15.180/kernel/sched/core.c:2311-2380 | whatever step comes next in any run, no dead request is touched and the warnings at 2322, 2379 and 2776 stay silent |
| Affinity.RequestsAreAlive | linux-5.15.180/kernel/sched/core.c:2580-2637 | in every reachable state the installed request, the argument of every stopper work and every request about to be signalled belong to a caller still blocked in affine_move_task; at most one stopper work is on its way, for the installed request |
| Affinity.CompletedOnce | linux-5.15.180/kernel/sched/core.c:2759-2776 | a request is signalled at most once, only after it was uninstalled, and its owner returns only after that |
| Affinity.DecidedWhenPlaced | linux-5.15.180/kernel/sched/core.c:2329-2372 | whenever a lock section decides that a request is complete, the task is off every runqueue or on a CPU of its effective mask |
| Affinity.PromiseKeptExactly | linux-5.15.180/kernel/sched/core.c:2362-2372 | a completion leaves the task off every runqueue or on a CPU of cpus_mask if and only if it is not a stopper section that finds the queued task pinned elsewhere, outside cpus_mask |
| Affinity.WaiterHasHelper | linux-5.15.180/kernel/sched/core.c:2580-2637 | in every reachable state, for every blocked caller a signal or a stopper work is on its way, or the task is pinned and must pass through migrate_enable |
| Affinity.EnableServes | linux-5.15.180/kernel/sched/core.c:2148-2173 | the outermost migrate_enable completes the request that waited for it or sends the stopper for it |
| Affinity.AttendedExactly | linux-5.15.180/kernel/sched/core.c:2329-2372 | a step leaves a task on a forbidden CPU with nobody asked to move it if and only if it is one of two stopper sections, described by what the stopper finds |
| Affinity.NoWarningUnlessForgotten | linux-5.15.180/kernel/sched/core.c:2710-2723 | in a run without those two the warning at 2719 is unreachable too |
| AffinityEffects.MaskEffect | linux-5.15.180/kernel/sched/core.c:2446-2453 | an accepted call stores exactly the mask it was given, a refused one changes nothing at all, and no other step touches the mask |
| AffinityEffects.ChangeEffect | linux-5.15.180/kernel/sched/core.c:2639-2779 | after an accepted change the caller has returned exactly if the task's CPU is allowed; otherwise it waits for an unfinished request that knows its destination; a queued task that may move is on the destination, every other task stays on its CPU |
| AffinityEffects.CpuEffect | linux-5.15.180/kernel/sched/core.c:2329-2372 | besides a change of mask only waking, balancing and the stopper move a task; the stopper moves exactly a queued, movable task on its own CPU outside the mask, to its request's destination, if that is allowed |
| AffinityEffects.RunEffect | linux-5.15.180/kernel/sched/core.c:2303-2313 | which steps make the task run, stop, sleep, wake or be queued; of the stopper's only the flush, which queues a task waking on its CPU |
| AffinityEffects.RegionEffect | linux-5.15.180/kernel/sched/core.c:2118-2173 | migrate-disable regions nest, counting up and down by one; being switched out inside one pins the task to its CPU; only the outermost enable gives it its own mask back |
| AffinityEffects.WorkEffect | linux-5.15.180/kernel/sched/core.c:2725-2742 | a stopper work is sent to the CPU the task is on, one at a time; it runs where it was sent, and goes on exactly if it finds the task elsewhere, on a CPU outside its effective mask, to wherever it is then |
| AffinityRuns.ForgottenTaskRun | linux-5.15.180/kernel/sched/core.c:2368-2372 | a concrete run with two callers in which the stopper completes both requests, the task stays pinned on a forbidden CPU, and the warning at 2719 fires |
| AffinityRuns.LateWakeRun | linux-5.15.180/kernel/sched/core.c:2306-2313 | a concrete run with three callers in which the task is woken onto the CPU after the stopper has passed its flush; the request is completed, the task runs on the forbidden CPU, and the warning at 2719 fires |
| AffinityRuns.EveryoneCanReturn | linux-5.15.180/kernel/sched/core.c:2759-2776 | every reachable state can be continued, without any warning, to one in which all callers have returned and no request is left |
| AffinityCode.Target.AffineMoveTask | linux-5.15.180/kernel/sched/core.c:2639-2757 | the in-place code ends in exactly the state of the protocol's step and returns -EINVAL exactly on the warning |
| AffinityCode.Target.PuntTask | linux-5.15.180/kernel/sched/core.c:2725-2742 | handing a running or waking task to its CPU's stopper, once per request |
| AffinityCode.Target.MoveTask | linux-5.15.180/kernel/sched/core.c:2743-2757 | moving a task that does not run, unless it is migrate-disabled, and completing unless a stopper will |
| AffinityCode.Target.SetCpusAllowedLocked | linux-5.15.180/kernel/sched/core.c:2784-2867 | in every invariant state the code takes exactly the protocol's step, keeps the invariant, and returns 0, -EBUSY or -EINVAL by the code's tests in the code's order; on 0 the task's mask is the given one, and a queued task free to move is inside a mask that changed; on an error nothing has changed |
| AffinityCode.Target.MigrationCpuStop | linux-5.15.180/kernel/sched/core.c:2294-2396 | in every invariant state the stopper's code takes exactly the protocol's step, raises no warning and keeps the invariant |
| AffinityCode.Target.StopperOut | linux-5.15.180/kernel/sched/core.c:2382-2395 | the common exit clears stop_pending, and completes the request if so decided |
| UclampIndex.BucketIdMonotone | linux-5.15.180/kernel/sched/core.c:1294-1297 | greater clamps never fall into lower buckets, for every bucket count |
| UclampIndex.DeltaIsClosest | linux-5.15.180/kernel/sched/core.c:1290-1297 | a bucket's width is the whole number nearest to the scale divided by the number of buckets, halves rounded up |
| UclampIndex.BucketIsInterval | linux-5.15.180/kernel/sched/core.c:1294-1297 | a bucket takes exactly the clamps of one interval of that width, the last one open above |
| UclampIndex.SameBucketExactly | linux-5.15.180/kernel/sched/core.c:1294-1297 | two clamps share a bucket if and only if they lie in one such interval |
| UclampIndex.TopmostIsMax | linux-5.15.180/kernel/sched/core.c:1342-1360 | the topmost non-empty bucket carries the maximum over all non-empty buckets |
| UclampIndex.CachedValueBounds | linux-5.15.180/kernel/sched/core.c:1491-1518 | the bucket maximum is at least every active clamp, lies in the bucket of the greatest one, and exceeds it by less than a bucket's width unless that one is in the last interval |
| UclampIndex.AddToBuckets | linux-5.15.180/kernel/sched/core.c:1491-1513 | counting a task in keeps every bucket right |
| UclampIndex.AddKeepsMax | linux-5.15.180/kernel/sched/core.c:1515-1517 | raising the cached value when needed keeps it the bucket maximum |
| UclampIndex.RemoveFromBuckets | linux-5.15.180/kernel/sched/core.c:1568-1572 | counting a task out keeps every bucket right |
| UclampIndex.RemoveKeepsMax | linux-5.15.180/kernel/sched/core.c:1574-1592 | without an emptied maximum bucket the cached value needs no update |
| UclampIndex.DecWarningsUnreachable | linux-5.15.180/kernel/sched/core.c:1563-1592 | for an active task its bucket is not empty and does not exceed the cached value: the warnings at 1568 and 1588 cannot fire |
| UclampIndex.EmptyWhenNoTasks | linux-5.15.180/kernel/sched/core.c:1342-1360 | all buckets are empty if and only if no task is active |
| UclampIndex.ClampIndex.MaxValue | linux-5.15.180/kernel/sched/core.c:1342-1360 | the loop from the top finds the bucket maximum, or handles the idle case, setting the flag exactly for the maximum id |
| UclampIndex.ClampIndex.Inc | linux-5.15.180/kernel/sched/core.c:1491-1518 | the active tasks gain exactly this one, and the cached value is the bucket maximum again |
| UclampIndex.ClampIndex.Dec | linux-5.15.180/kernel/sched/core.c:1529-1593 | the active tasks lose exactly this one; an uncounted task changes nothing; the idle flag and the retained value are as documented |
| UclampRq.UclampRq.Enqueue | linux-5.15.180/kernel/sched/core.c:1595-1617 | with the key on, an enabled task is counted under both ids; the idle flag is cleared; the invariant of the runqueue holds again |
| UclampRq.UclampRq.Dequeue | linux-5.15.180/kernel/sched/core.c:1619-1637 | the task is counted out of both ids, also when the key was switched on while it was queued; the retained maximum is that of the last active task dequeued |
| UclampRq.UclampRq.ReincMin | linux-5.15.180/kernel/sched/core.c:1639-1654 | re-clamping one id changes that task's clamp there and nothing else, the idle flag included |
| UclampRq.UclampRq.ReincMax | linux-5.15.180/kernel/sched/core.c:1639-1654 | the same for the maximum id, whose transient idle flag is undone |
| UclampRq.UclampRq.Reclamp | linux-5.15.180/kernel/sched/core.c:1656-1682 | an active task gets both new clamps, others are left alone |
| UclampRq.UclampRq.EnableKey | linux-5.15.180/kernel/sched/core.c:1595-1637 | switching the key on in any state keeps the invariant |
| UclampRq.UclampRq.ValueBounds | linux-5.15.180/kernel/sched/core.c:1491-1518 | after any operations the value of an id with active tasks is the bucket maximum, bounds every active clamp, and exceeds the greatest by less than a bucket's width, except in the last bucket, which is open above |
| UclampTree.FullIsPathMinimum | linux-5.15.180/kernel/sched/core.c:10110-10141 | the recomputed maximum is the least maximum requested on the path from the root, the minimum the least of all minima and maxima requested on it |
| UclampTree.RangeIsSubtree | linux-5.15.180/kernel/sched/core.c:10122-10124 | in pre-order the descendants of a group are exactly the range that follows it |
| UclampTree.PrunedAreFull | linux-5.15.180/kernel/sched/core.c:10149-10152 | if a group's clamps are already right, so are those of all descendants consistent with their parents |
| UclampTree.SkipIsFull | linux-5.15.180/kernel/sched/core.c:10149-10152 | a skipped subtree equals its full recomputation |
| UclampTree.UpdateEff | linux-5.15.180/kernel/sched/core.c:10110-10156 | the pruned in-place pass leaves the whole tree equal to full recomputation, and updates the tasks of exactly the groups whose clamps changed, in pre-order |
| UclampTree.RequestMakesStale | linux-5.15.180/kernel/sched/core.c:10201-10234 | a new request leaves only its own group inconsistent with its parent |
| UclampTree.WriteRequest | linux-5.15.180/kernel/sched/core.c:10201-10234 | storing a request and running the pass takes a fully computed tree to the fully computed tree of the new requests, and reports exactly the groups whose effective clamps differ |
| UclampTree.InitialTree | linux-5.15.180/kernel/sched/core.c:1936-1944 | the root group starts fully computed |
| UclampTree.WithChildPreOrder | linux-5.15.180/kernel/sched/core.c:10015-10021 | a new last child, placed after all descendants of its parent, leaves the tree numbered in pre-order |
| UclampTree.NewGroupIsStale | linux-5.15.180/kernel/sched/core.c:9811-9823 | a new group, whatever clamps it starts with, leaves every other group of a fully computed tree right |
| UclampTree.AddGroup | linux-5.15.180/kernel/sched/core.c:10015-10033 | creating a group and bringing it online takes a fully computed tree to a fully computed tree with one group more |
| CorePick.ClassPickIsTop | linux-5.15.180/kernel/sched/core.c:5709-5720 | once no higher class has work, a class's pick is the most urgent task of the whole runqueue |
| CorePick.PrioLessExactly | linux-5.15.180/kernel/sched/core.c:93-134 | prio_less orders tasks by class, stop first and idle last, real-time tasks by smaller prio, deadline tasks by earlier deadline, fair tasks by their key; it also holds both ways for equal deadlines |
| CorePick.BelowIsUrgency | linux-5.15.180/kernel/sched/core.c:93-134 | the order used in all results is that urgency |
| CorePick.TopIsMostUrgent | linux-5.15.180/kernel/sched/core.c:5709-5720 | the top of a runqueue is one of its tasks, idle only if there is none, and no task there is of a class before it, or of its class and more urgent |
| CorePick.CompatiblePick | linux-5.15.180/kernel/sched/core.c:5709-5749 | a pick compatible with max comes from its runqueue and passes over only tasks that max equals or outranks |
| CorePick.IncompatiblePick | linux-5.15.180/kernel/sched/core.c:5719-5748 | a pick incompatible with max is its runqueue's most urgent task and no less urgent than max |
| CorePick.RestartRaises | linux-5.15.180/kernel/sched/core.c:5903-5919 | a restart strictly raises the pair of max's urgency and a tie rank that depends on whether max has a cookie, unless the two are deadline tasks that tie with different cookies |
| CorePick.StepGood | linux-5.15.180/kernel/sched/core.c:5864-5922 | each turn of the loop keeps the invariant, and without a restart the loop moves on |
| CoreEnds.SelectionEnds | linux-5.15.180/kernel/sched/core.c:5860-5929 | for any number of siblings and tasks without a trap, the selection ends after at most one restart fewer than siblings, with a pick on every sibling, all picks pairwise compatible, no task passed over except for a max at least as urgent, and each sibling served as the core's cookie allows |
| CoreEnds.SelectionEndsExactly | linux-5.15.180/kernel/sched/core.c:5864-5922 | for any number of siblings and tasks the selection ends if and only if there is no trap: no stop task on top of any sibling, and a pair of siblings whose deadline tasks tie with different nonzero cookies, with only later deadlines before the first and only later ones or the first one's cookie between them |
| CoreEnds.TrapNeverEnds | linux-5.15.180/kernel/sched/core.c:119-128 | in a trap no number of turns ends the selection |
| CoreEnds.LateTieIsTrap | linux-5.15.180/kernel/sched/core.c:5903-5919 | whenever a tie makes a later sibling displace an earlier one, the two are a trap |
| CoreEnds.OutcomeServes | linux-5.15.180/kernel/sched/core.c:5719-5748 | whatever the siblings hold, an ended selection has picked for all of them compatibly; with a nonzero cookie each runs its most urgent task of that cookie and idles exactly if it has none; with cookie 0 each runs its most urgent task if that has no cookie and is idled otherwise |
| CoreEnds.SelectedIsFair | linux-5.15.180/kernel/sched/core.c:5738-5748 | on no sibling is a task more urgent than both the sibling's pick and the core's max, which is itself one of the picks |
| CoreEnds.RealTimeNotHeldBack | linux-5.15.180/kernel/sched/core.c:5738-5748 | once a selection has ended, no real-time task is passed over because of the cookie of a real-time task of larger prio, or of a task of a later class |
| CoreEnds.DistinctDeadlinesHaveNoTies | linux-5.15.180/kernel/sched/core.c:127-128 | distinct deadlines exclude any tie, and so any trap |
| CoreEnds.TwoSiblingsEndExactly | linux-5.15.180/kernel/sched/core.c:107-134 | on two siblings the selection ends if and only if their top tasks are not deadline tasks with equal deadlines and different nonzero cookies |
| CoreEnds.EarliestTieNeverEnds | linux-5.15.180/kernel/sched/core.c:5742-5748 | for any number of siblings: with two top tasks that tie at the core's earliest deadline with different cookies, no top task of that deadline without a cookie and no stop task, the selection never ends |
| CoreEnds.EarliestServed | linux-5.15.180/kernel/sched/core.c:5729-5748 | a finished state of the loop has the cookie of every top task at the core's earliest deadline, if all of those have one and no stop task is runnable |
| CoreEnds.EarliestServedAtEnd | linux-5.15.180/kernel/sched/core.c:5729-5748 | the same for a selection that has run from its start: once it has ended, its cookie is that of every such task |
| CorePick.OutcomeUnique | linux-5.15.180/kernel/sched/core.c:5860-5922 | a selection has at most one outcome |
| CoreEnds.SelectCore | linux-5.15.180/kernel/sched/core.c:5851-5922 | the two nested loops with goto, writing core_pick in place, end in the outcome of the step function; cookie, occupation and forced idleness are those of the final picks, every sibling is served, and no task is more urgent than both its sibling's pick and the core's max |
| CoreSeq.StepKeeps | linux-5.15.180/kernel/sched/core.c:171-190 | enqueue, dequeue, changes of urgency, reschedule requests and pick_next_task on any sibling keep the invariant, also when a new pick is made although a cached one appeared while balancing |
| CoreSeq.QueueEffect | linux-5.15.180/kernel/sched/core.c:171-190 | enqueue and dequeue change one queue by exactly one task |
| CoreSeq.ScheduleEffect | linux-5.15.180/kernel/sched/core.c:5779-5984 | a sibling that schedules runs its cached pick, or the most urgent task of its own queue, or its share of a new selection; it has no reschedule pending afterwards; the others keep what they run, and are asked to reschedule only by a selection, exactly if they do not run their picks |
| CoreSeq.SelectionEffect | linux-5.15.180/kernel/sched/core.c:5805-5922 | a pick past the cached one is for the core unless the core has no cookie and nobody is forced idle; a selection's cookie is that of all busy picks, and forced idleness is noted exactly if a sibling with work was chosen to idle |
| CoreSeq.SettledSiblingsMatch | linux-5.15.180/kernel/sched/core.c:5931-5977 | at every moment of every run, two siblings without a pending reschedule run tasks that may share the core |
| CoreSeq.CachedPickIsFresh | linux-5.15.180/kernel/sched/core.c:5779-5801 | in every run, when the fast path fires the pick is that of the latest core-wide selection, still on its runqueue; all queues hold what they held then, and all other siblings run or are told to run their picks |
| CoreSeq.NoQueueEventSince | linux-5.15.180/kernel/sched/core.c:171-190 | the same in terms of events: the core-wide selection that chose the pick is a step of the run, and no task has been enqueued or dequeued on any sibling, and no other core-wide selection made, between it and the use of the pick |
| CoreSeq.PickPossibleExactly | linux-5.15.180/kernel/sched/core.c:5826-5922 | pick_next_task can make a new pick if and only if the sibling needs none for the core or the core holds no trap in its visiting order |
| CoreSeq.HistoryIsLatest | linux-5.15.180/kernel/sched/core.c:5924-5926 | the recorded selection is that of the latest core-wide selection and changes nowhere else |
| CoreSeq.SchedSeqIsRedundant | linux-5.15.180/kernel/sched/core.c:5788-5790 | in every reachable state the fast path fires exactly when pick_seq equals task_seq and core_pick is set |
| CoreSeq.ChosenFacts | linux-5.15.180/kernel/sched/core.c:5866-5887 | read back from the wrapped visiting order, each sibling's pick comes from its own queue and fits the core's new cookie |
| CoreCode.Siblings.PickNextTask | linux-5.15.180/kernel/sched/core.c:5753-5984 | the in-place code uses the cached pick exactly if the three tests hold, and otherwise picks anew in the state that balancing, which may drop the lock, leaves behind: a task of the sibling's queue or its idle task, and without a core-wide selection the most urgent one, idle only for an empty queue |
| CoreCode.Siblings.PickAnew | linux-5.15.180/kernel/sched/core.c:5805-5984 | from any state the rest of the code makes the unconstrained pick, which is the most urgent task of the queue, has no cookie and is idle only if the queue is empty, or the core-wide selection; the warnings at 5845 and 5929 are asserted not to fire |
| CoreCode.Siblings.HighestClassPick | linux-5.15.180/kernel/sched/core.c:5832-5837 | the scan over classes finds the runqueue's most urgent task |
| CoreCode.Siblings.ReschedSiblings | linux-5.15.180/kernel/sched/core.c:5939-5977 | each other sibling keeps its pick and is asked to reschedule exactly if it does not run it already; the warning at 5971 is asserted not to fire |
| TgWalk.WalkTgTreeFrom | linux-5.15.180/kernel/sched/core.c:1169-1198 | from any group of any finite tree the goto walk ends with the data and the result of the recursive walk, for all visitors |
| TgWalk.WalkPerformsVisits | linux-5.15.180/kernel/sched/core.c:1163-1168 | the walk makes the visits of a full walk in order and stops at, and returns, the first nonzero result |
| TgWalk.VisitOrder | linux-5.15.180/kernel/sched/core.c:1163-1168 | a full walk goes down in pre-order and up in post-order |
| TgWalk.EachGroupOnce | linux-5.15.180/kernel/sched/core.c:1163-1168 | either order lists every group of the subtree exactly once and no other |
| ProcessWalk.WalkProcessTree | linux-5.15.180/kernel/fork.c:2888-2918 | on every finite process tree the goto walk ends with the data of the recursive walk |
| ProcessWalk.WalkIsPreOrder | linux-5.15.180/kernel/fork.c:2888-2918 | for answers that depend on the process alone: the descendants all of whose ancestors answered positively form one strictly increasing pre-order list, and the calls are that list up to and including the first negative answer; only that stops the walk |
| ProcessWalk.AnyWalkIsPreOrder | linux-5.15.180/kernel/fork.c:2888-2918 | for any visitor, whatever it makes of its data: its calls, logged with their answers, are the pre-order of the descendants reached under the answers it gave, up to and including the first negative one; it stops exactly then |
| ProcessWalk.CallsDistinct | linux-5.15.180/kernel/fork.c:2895-2908 | no descendant is called twice |
| ProcessWalk.CallsMade | linux-5.15.180/kernel/fork.c:2895-2908 | the same from any place inside the walk |
| ProcessWalk.OrderContents | linux-5.15.180/kernel/fork.c:2895-2908 | which descendants are called from a place on |
| ProcessWalk.OrderIncreases | linux-5.15.180/kernel/fork.c:2895-2908 | each call comes later in pre-order than those before it |
| Bandwidth.RatioFitsWord | linux-5.15.180/kernel/sched/core.c:4480-4494 | for every accepted quota and period the shift loses no bit and the ratio is positive as a signed word, so it is never taken for the infinite one |
| Bandwidth.NormalizeIsRatio | linux-5.15.180/kernel/sched/core.c:10523-10541 | the code's 64-bit arithmetic, with its two encodings of infinity, computes the exact ratio of the settings after the change |
| Bandwidth.RatioMeans | linux-5.15.180/kernel/sched/core.c:4480-4494 | a ratio r says that r, and not r + 1, 2^-20ths of a CPU fit into quota per period |
| Bandwidth.DownVisit | linux-5.15.180/kernel/sched/core.c:10543-10574 | below a settled parent the visitor accepts exactly a group that fits and settles it, or fails and writes nothing |
| Bandwidth.CheckIsExact | linux-5.15.180/kernel/sched/core.c:10576-10595 | for any hierarchical quotas left behind the walk returns 0 if and only if every limited group has at most the ratio of its nearest limited ancestor, and then each hierarchical_quota is that of the nearest limited group |
| Bandwidth.EffectiveIsMinimum | linux-5.15.180/kernel/sched/core.c:10558-10571 | on a feasible hierarchy that ratio is the minimum of the finite ratios on the path from the root |
| Bandwidth.Hierarchy.CfsSchedulable | linux-5.15.180/kernel/sched/core.c:10576-10595 | the check run on the goto walk returns 0 exactly for feasible settings, and then settles every hierarchical_quota; a refusal leaves settled quotas settled exactly if the changed group does not fit |
| Bandwidth.Hierarchy.SetBandwidth | linux-5.15.180/kernel/sched/core.c:10313-10398 | over every run the settings stay feasible; a change is accepted if and only if it is within bounds and feasible; a refused one changes no setting, and disturbs settled quotas exactly if the change is within bounds and the changed group itself fits |
| Bandwidth.Hierarchy.SetQuota | linux-5.15.180/kernel/sched/core.c:10401-10427 | accepted exactly when the resulting setting is within bounds and feasible; what was accepted reads back in microseconds, -1 for none; nothing else changes |
| Bandwidth.Hierarchy.AddGroup | linux-5.15.180/kernel/sched/core.c:10558-10571 | creating a group keeps the hierarchy feasible |
| Bandwidth.RefusalLeavesQuota | linux-5.15.180/kernel/sched/core.c:10571-10595 | a concrete refused change after which a group's hierarchical_quota differs from its share |
| Bandwidth.RefusalKeepsQuotasExactly | linux-5.15.180/kernel/sched/core.c:10555-10571 | from settled quotas and feasible settings, a refused change within bounds leaves the quotas settled if and only if the changed group itself does not fit under its ancestors; otherwise its new share stays written and differs from its share in force |
| Bandwidth.RefusedWalk | linux-5.15.180/kernel/sched/core.c:10543-10595 | the quotas at the refusal: all groups visited before the changed one hold what they held, and it holds its new share if it fits |
| Bandwidth.RefusedShareDiffers | linux-5.15.180/kernel/sched/core.c:10555-10571 | a change refused although the changed group fits changes its share in force |
| RqLocks.StepKeeps | linux-5.15.180/kernel/sched/sched.h:2576-2635 | each step of any thread moves only that thread, takes only free locks, gives up only locks it holds, and keeps the invariant |
| RqLocks.MutualExclusion | linux-5.15.180/kernel/sched/core.c:526-538 | in every reachable state no two threads hold the same lock, and no lock was ever released by another than its holder |
| RqLocks.BlocksInOrder | linux-5.15.180/kernel/sched/sched.h:2537-2558 | in every reachable state a thread blocked while holding a lock holds that of the lesser runqueue in rq_order_less and waits for a different one |
| RqLocks.HoldsWhatItTook | linux-5.15.180/kernel/sched/sched.h:2670-2679 | between locking and unlocking a pair, one lock is held if it is shared and two otherwise; outside, none |
| RqLocks.WaitForIsAcyclic | linux-5.15.180/kernel/sched/sched.h:2594-2615 | in no reachable state does a thread wait for itself through any number of others |
| RqLocks.SomeoneCanStep | linux-5.15.180/kernel/sched/sched.h:2594-2615 | while any thread is inside these functions or holds a lock, some such thread can take a step |
| RqLocks.OrderIsByCoreThenCpu | linux-5.15.180/kernel/sched/sched.h:2537-2558 | the runqueue of the lower core comes first, on one core that of the lower CPU; two runqueues share a lock exactly if they are the same or siblings under core scheduling |
| RqLocks.StepGoal | linux-5.15.180/kernel/sched/sched.h:2576-2615 | double_rq_lock goes for its two runqueues, the lesser first; _double_lock_balance for the one it has and the other, at once exactly if that lock is shared or free, keeping the first exactly if it is the lesser; a thread's goal stays the same until it has both |
| RqLocks.HasBothLocks | linux-5.15.180/kernel/sched/core.c:526-538 | a thread that has the two runqueues it went for holds exactly their locks |
| DupMmap.CopyArea | linux-5.15.180/kernel/fork.c:541-579 | the first half of the loop body yields a copy with everything charged, or an error with everything given back, in exactly the code's cases |
| DupMmap.LinkArea | linux-5.15.180/kernel/fork.c:601-613 | writing through the pointer to a pointer appends the area to a list linked in both directions |
| DupMmap.CopyOne | linux-5.15.180/kernel/fork.c:541-621 | one loop body: linked with its charges kept, also when copying pages fails afterwards, or not linked and nothing kept |
| DupMmap.CopyLoop | linux-5.15.180/kernel/fork.c:533-624 | on every exit of the loop the child's list holds the planned copies in order, map_count is its length, and the parent's list is untouched |
| DupMmap.DupMmap | linux-5.15.180/kernel/fork.c:494-641 | on every exit vm_prev inverts vm_next, the list is the planned one, and pages charged, areas allocated, policies and file references are exactly those of the linked areas; on success total_vm counts the copied pages |
| DupMmap.PlanIsPrefix | linux-5.15.180/kernel/fork.c:534-622 | what is linked is the in-order copy of a prefix of the parent's list without its VM_DONTCOPY areas; on success, of all of it |
| DupMmap.CopiesInOrder | linux-5.15.180/kernel/fork.c:356-372 | each area that may be copied has its copy behind those of the areas before it, equal to it but for the dropped locks |
| DupMmap.CopiesCount | linux-5.15.180/kernel/fork.c:534-540 | there are as many copies as areas that may be copied |
| DupMmap.FirstFailure | linux-5.15.180/kernel/fork.c:541-621 | the copying goes on to the first area that is not granted all it asks for and fails with that one's error: -EINTR for a signal, -ENOMEM for a lack, else that of copying its pages |
| DupMmap.SuccessExactly | linux-5.15.180/kernel/fork.c:494-641 | dup_mmap returns 0 exactly if no step before, in or after the loop fails |
| DupMmap.PagesSplit | linux-5.15.180/kernel/fork.c:537-540 | skipped and copied pages add up to the parent's |

## Left out

* Class bodies of fair, rt, deadline and idle; `cfs_prio_less`; cpusets; page tables; `list.h` internals. They enter as parameters, oracles or abstract orders.
* Memory barriers, lockless reads, RCU, lockdep, tracing, statistics, timers: a step is atomic.
* CPU hotplug: the online CPUs, core membership and whether core scheduling is enabled stay fixed.
* The lottery class in core-wide selection: it defines no `pick_task`.
* The shortcut of `__pick_next_task` (`core.c:5653`): lottery tasks do not raise `rq->nr_running`.
* `kernel_clone` on a failed `copy_process`: the ticket write precedes the error check; only successful forks are steps.
* `switched_from_lottery` as a step: it is shown to be unreachable instead.
* The cgroup version 2 branch of the bandwidth check; throttling and timers behind the settings.
* Removal of task groups, in the bandwidth and in the clamp tree.
* Kernel threads (whose masks are not limited to the possible CPUs), `SCA_USER` masks, `nr_pinned`, `push_cpu_stop`, and the `-EBUSY` warning of a task that changes its own affinity while pinned, in the affinity protocol.
* `uclamp_eff_get`: the effective clamps of a task are arguments of the runqueue operations.
* Cookie changes of existing tasks: core_sched.c is not part of this model.
* The two halves of `dup_mmap` before and after the copy loop are reduced to their results; the red-black tree, the reverse maps and the counters other than `total_vm` are not modelled.
* The affinity protocol, the lottery task's life, the lock protocol and the life of a core are interleavings of threads and are modelled on values, one step per lock section. Their in-place code is proved against these steps in `AffinityCode.dfy`, `LotteryQueue.dfy` and `CoreCode.dfy`.
- CoreSeq.CachedPickIsFresh: counters are unbounded; the code's wrap around after 2^32 changes.
- CoreSeq.NoQueueEventSince: the same.
- CoreCode.Siblings.PickNextTask: does not model what put_prev_task and set_next_task do in the classes; what the siblings do while balancing has dropped the lock enters as a parameter, and CoreSeq lets it be any steps.
- TgWalk.WalkTgTreeFrom: pointers to groups are paths, and visitors may change their data but not the tree.
