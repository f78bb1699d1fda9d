/**
 Both clamp indexes of one runqueue over its life (kernel/sched/core.c, uclamp_rq_inc,
 uclamp_rq_dec, uclamp_rq_reinc_id, init_uclamp_rq), with the idle flag and the static key
 that may be switched on after tasks were queued.
 */
module UclampRq {
  import opened UclampIndex

  class UclampRq {
    const minIx: ClampIndex
    const maxIx: ClampIndex
    var idle: bool                        // UCLAMP_FLAG_IDLE
    var used: bool                        // sched_uclamp_used
    ghost var queued: map<Tid, bool>      // tasks on this runqueue, and whether their class is uclamp_enabled
    ghost var lastMax: nat                // max clamp of the last active task dequeued

    ghost function Repr(): set<object> {
      {this, minIx, minIx.tasks, minIx.values, maxIx, maxIx.tasks, maxIx.values}
    }

    ghost predicate Separate() {
      && minIx != maxIx && minIx.id == UCLAMP_MIN && maxIx.id == UCLAMP_MAX && minIx.n == maxIx.n
      && {minIx.tasks, minIx.values} !! {maxIx.tasks, maxIx.values}
    }

    /** Between operations: both ids count the same tasks, and the idle flag is set exactly when that is none. */
    ghost predicate Valid()
      reads Repr()
    {
      && Separate() && minIx.Valid() && maxIx.Valid()
      && minIx.se.Keys == maxIx.se.Keys
      && (forall p | p in maxIx.se :: p in queued && queued[p])
      && (!used ==> maxIx.se == map[])
      && (idle <==> maxIx.se == map[])
      && (idle ==> minIx.value == 0 && maxIx.value == lastMax)
    }

    /** init_uclamp_rq */
    constructor (n: nat)
      requires 0 < n <= SCHED_CAPACITY_SCALE
      ensures Valid() && fresh(Repr())
      ensures queued == map[] && !used && idle && lastMax == SCHED_CAPACITY_SCALE
    {
      minIx := new ClampIndex(UCLAMP_MIN, n);
      maxIx := new ClampIndex(UCLAMP_MAX, n);
      idle, used := true, false;
      queued, lastMax := map[], SCHED_CAPACITY_SCALE;
    }

    /** static_branch_enable: the key is never switched off again. */
    method EnableKey()
      requires Valid()
      modifies this`used
      ensures Valid() && used
    {
      used := true;
    }

    /** uclamp_rq_inc on enqueue; effMin and effMax are the clamps uclamp_eff_get returned. */
    method Enqueue(p: Tid, enabled: bool, effMin: nat, effMax: nat)
      requires Valid() && p !in queued
      modifies Repr()
      ensures Valid() && queued == old(queued)[p := enabled] && used == old(used) && lastMax == old(lastMax)
      ensures if used && enabled
              then minIx.se == old(minIx.se)[p := effMin] && maxIx.se == old(maxIx.se)[p := effMax] && !idle
              else minIx.se == old(minIx.se) && maxIx.se == old(maxIx.se)
    {
      hide BucketsOk, IsBucketMax;
      queued := queued[p := enabled];
      if !used || !enabled {
        return;
      }
      minIx.Inc(p, effMin, idle);
      maxIx.Inc(p, effMax, idle);
      if idle {
        idle := false;
      }
    }

    /** uclamp_rq_dec on dequeue, the class answering uclamp_enabled as it did on enqueue. */
    method Dequeue(p: Tid, enabled: bool)
      requires Valid() && p in queued && queued[p] == enabled
      modifies Repr()
      ensures Valid() && queued == old(queued) - {p} && used == old(used)
      ensures minIx.se == old(minIx.se) - {p} && maxIx.se == old(maxIx.se) - {p}
      ensures lastMax == if p in old(maxIx.se) then old(maxIx.se)[p] else old(lastMax)
    {
      hide BucketsOk, IsBucketMax;
      queued := queued - {p};
      if !used || !enabled {
        assert minIx.se - {p} == minIx.se && maxIx.se - {p} == maxIx.se;
        return;
      }
      if p in maxIx.se {
        lastMax := maxIx.se[p];
      }
      assert p !in maxIx.se ==> minIx.se - {p} == minIx.se && maxIx.se - {p} == maxIx.se;
      var ignored := minIx.Dec(p);
      var setsIdle := maxIx.Dec(p);
      if setsIdle {
        idle := true;
      }
      assert maxIx.se == map[] ==> minIx.se.Keys == {};
    }

    /** uclamp_rq_reinc_id(UCLAMP_MIN) */
    method ReincMin(p: Tid, v: nat)
      requires Valid()
      modifies Repr()
      ensures Valid() && queued == old(queued) && used == old(used) && idle == old(idle) && lastMax == old(lastMax)
      ensures minIx.se == (if p in old(minIx.se) then old(minIx.se)[p := v] else old(minIx.se)) &&
          maxIx.se == old(maxIx.se)
    {
      hide BucketsOk, IsBucketMax;
      if p !in minIx.se {
        return;
      }
      ghost var was := minIx.se;
      assert p in maxIx.se && !idle;
      var ignored := minIx.Dec(p);
      minIx.Inc(p, v, idle);
      assert minIx.se == was[p := v];
    }

    /** uclamp_rq_reinc_id(UCLAMP_MAX), which undoes a transient idle flag. */
    method ReincMax(p: Tid, v: nat)
      requires Valid()
      modifies Repr()
      ensures Valid() && queued == old(queued) && used == old(used) && idle == old(idle) && lastMax == old(lastMax)
      ensures maxIx.se == (if p in old(maxIx.se) then old(maxIx.se)[p := v] else old(maxIx.se)) &&
          minIx.se == old(minIx.se)
    {
      hide BucketsOk, IsBucketMax;
      if p !in maxIx.se {
        return;
      }
      ghost var was := maxIx.se;
      var setsIdle := maxIx.Dec(p);
      if setsIdle {
        idle := true;
      }
      maxIx.Inc(p, v, idle);
      if idle {
        idle := false;
      }
      assert maxIx.se == was[p := v];
    }

    /** uclamp_update_active: a counted task is moved to its new clamps, others are left alone. */
    method Reclamp(p: Tid, effMin: nat, effMax: nat)
      requires Valid()
      modifies Repr()
      ensures Valid() && queued == old(queued) && used == old(used) && idle == old(idle) && lastMax == old(lastMax)
      ensures if p in old(maxIx.se)
              then minIx.se == old(minIx.se)[p := effMin] && maxIx.se == old(maxIx.se)[p := effMax]
              else minIx.se == old(minIx.se) && maxIx.se == old(maxIx.se)
    {
      hide BucketsOk, IsBucketMax;
      ReincMin(p, effMin);
      ReincMax(p, effMax);
    }

    /** The value a clamp id answers with, against the true maximum of the active clamps. */
    lemma ValueBounds(ix: ClampIndex, top: Tid)
      requires Valid() && ix in {minIx, maxIx} && IsTop(ix.se, top)
      ensures IsBucketMax(ix.tasks[..], ix.values[..], ix.value)
      ensures forall p | p in ix.se :: ix.se[p] <= ix.value
      ensures BucketId(ix.n, ix.value) == BucketId(ix.n, ix.se[top])
      ensures ix.value < ix.se[top] + BucketDelta(ix.n) || ix.se[top] >= (ix.n - 1) * BucketDelta(ix.n)
    {
      CachedValueBounds(ix.n, ix.se, ix.tasks[..], ix.values[..], ix.value, top);
    }
  }
}
