/**
 The per-runqueue utilization-clamp index (kernel/sched/core.c, uclamp_rq_inc_id and
 uclamp_rq_dec_id): for each clamp id, buckets that count the active tasks and remember a
 maximum, and a cached value meant to be the maximum over all of them.
 */
module UclampIndex {
  import opened Arith

  type Tid = nat

  const SCHED_CAPACITY_SCALE := 1024
  const UCLAMP_MIN := 0
  const UCLAMP_MAX := 1

  /** UCLAMP_BUCKET_DELTA for n buckets: DIV_ROUND_CLOSEST(SCHED_CAPACITY_SCALE, n). */
  function BucketDelta(n: nat): nat
    requires n > 0
  {
    (SCHED_CAPACITY_SCALE + n / 2) / n
  }

  function BucketId(n: nat, value: nat): nat
    requires 0 < n <= SCHED_CAPACITY_SCALE
  {
    DeltaPositive(n);
    var b := value / BucketDelta(n);
    if b < n - 1 then b else n - 1
  }

  lemma DeltaPositive(n: nat)
    requires 0 < n <= SCHED_CAPACITY_SCALE
    ensures BucketDelta(n) > 0
  {
  }

  lemma BucketIdMonotone(n: nat, a: nat, b: nat)
    requires 0 < n <= SCHED_CAPACITY_SCALE && a <= b
    ensures BucketId(n, a) <= BucketId(n, b)
  {
    DeltaPositive(n);
    var d := BucketDelta(n);
    DivMonotone(a, b, d);
    hide BucketDelta;
  }

  lemma DivMonotone(a: nat, b: nat, d: nat)
    requires a <= b && d > 0
    ensures a / d <= b / d
  {
    var x, y := a / d, b / d;
    assert a == d * x + a % d && b == d * y + b % d;
    if x > y { MulMono(y + 1, x, d); }
  }

  /** The width is the whole number nearest to the n-th part of the scale, halves rounded up. */
  lemma DeltaIsClosest(n: nat)
    requires 0 < n <= SCHED_CAPACITY_SCALE
    ensures 0 - n <= 2 * (SCHED_CAPACITY_SCALE - BucketDelta(n) * n) < n
  {
    DivMod(SCHED_CAPACITY_SCALE + n / 2, n);
  }

  lemma DivMod(x: nat, n: nat)
    requires n > 0
    ensures 0 <= x - x / n * n < n
  {
  }

  /** v lies in the k-th of n intervals as wide as a bucket, the last one open above. */
  predicate Interval(n: nat, k: nat, v: nat)
    requires 0 < n
  {
    k < n && k * BucketDelta(n) <= v && (k < n - 1 ==> v < (k + 1) * BucketDelta(n))
  }

  /** A bucket takes exactly the clamps of one interval. */
  lemma BucketIsInterval(n: nat, k: nat, v: nat)
    requires 0 < n <= SCHED_CAPACITY_SCALE
    ensures BucketId(n, v) == k <==> Interval(n, k, v)
  {
    DeltaPositive(n);
    var d := BucketDelta(n);
    hide BucketDelta;
    DivInterval(v, d, k);
    if k == n - 1 { DivAtLeast(v, d, k); }
  }

  lemma DivAtLeast(v: nat, d: nat, k: nat)
    requires d > 0
    ensures v / d >= k <==> v >= k * d
  {
    var q := v / d;
    assert v == d * q + v % d;
    if q >= k { MulMono(k, q, d); } else { MulMono(q + 1, k, d); }
  }

  lemma DivInterval(v: nat, d: nat, k: nat)
    requires d > 0
    ensures v / d == k <==> k * d <= v < (k + 1) * d
  {
    DivAtLeast(v, d, k);
    DivAtLeast(v, d, k + 1);
  }

  /** Two clamps share a bucket if and only if they lie in one interval. */
  lemma SameBucketExactly(n: nat, a: nat, b: nat)
    requires 0 < n <= SCHED_CAPACITY_SCALE
    ensures BucketId(n, a) == BucketId(n, b) <==> exists k: nat :: Interval(n, k, a) && Interval(n, k, b)
  {
    BucketIsInterval(n, BucketId(n, a), a);
    BucketIsInterval(n, BucketId(n, a), b);
    if k: nat :| Interval(n, k, a) && Interval(n, k, b) {
      BucketIsInterval(n, k, a);
      BucketIsInterval(n, k, b);
    }
  }

  /** So they are less than a width apart, unless both are in the last interval. */
  lemma SameBucketClose(n: nat, a: nat, b: nat)
    requires 0 < n <= SCHED_CAPACITY_SCALE && BucketId(n, a) == BucketId(n, b)
    ensures b < a + BucketDelta(n) || a >= (n - 1) * BucketDelta(n)
  {
    var k := BucketId(n, a);
    BucketIsInterval(n, k, a);
    BucketIsInterval(n, k, b);
    Distribute(k, BucketDelta(n));
    hide BucketDelta, BucketId;
  }

  lemma Distribute(k: nat, d: nat)
    ensures (k + 1) * d == k * d + d
  {
  }

  /** uclamp_none */
  function ClampNone(id: nat): nat {
    if id == UCLAMP_MIN then 0 else SCHED_CAPACITY_SCALE
  }

  // ---------------------------------------------------------------- what the index stands for

  /** The active tasks of bucket b. */
  function InBucket(n: nat, active: map<Tid, nat>, b: nat): set<Tid>
    requires 0 < n <= SCHED_CAPACITY_SCALE
  {
    set t | t in active && BucketId(n, active[t]) == b
  }

  /** tasks[b] counts bucket b, and a non-empty bucket's value lies in it and bounds its tasks. */
  predicate BucketOk(n: nat, active: map<Tid, nat>, b: nat, tasks: nat, value: nat)
    requires 0 < n <= SCHED_CAPACITY_SCALE
  {
    && tasks == |InBucket(n, active, b)|
    && (tasks > 0 ==> BucketId(n, value) == b)
    && (forall t | t in active && BucketId(n, active[t]) == b :: active[t] <= value)
  }

  predicate BucketsOk(n: nat, active: map<Tid, nat>, tasks: seq<nat>, values: seq<nat>)
    requires 0 < n <= SCHED_CAPACITY_SCALE
  {
    |tasks| == n && |values| == n &&
    forall b | 0 <= b < n :: BucketOk(n, active, b, tasks[b], values[b])
  }

  /** value is the maximum over the non-empty buckets. */
  predicate IsBucketMax(tasks: seq<nat>, values: seq<nat>, value: nat)
    requires |tasks| == |values|
  {
    && (exists b :: 0 <= b < |tasks| && tasks[b] > 0 && values[b] == value)
    && (forall b | 0 <= b < |tasks| && tasks[b] > 0 :: values[b] <= value)
  }

  /** t has the greatest clamp of the active tasks. */
  predicate IsTop(active: map<Tid, nat>, t: Tid) {
    t in active && forall u | u in active :: active[u] <= active[t]
  }

  lemma ActiveInBucket(n: nat, active: map<Tid, nat>, tasks: seq<nat>, values: seq<nat>, t: Tid)
    requires 0 < n <= SCHED_CAPACITY_SCALE && BucketsOk(n, active, tasks, values) && t in active
    ensures var b := BucketId(n, active[t]); tasks[b] > 0 && active[t] <= values[b]
  {
    var b := BucketId(n, active[t]);
    assert BucketOk(n, active, b, tasks[b], values[b]);
    assert t in InBucket(n, active, b);
  }

  lemma BucketHasTask(n: nat, active: map<Tid, nat>, tasks: seq<nat>, values: seq<nat>, b: nat) returns (t: Tid)
    requires 0 < n <= SCHED_CAPACITY_SCALE && BucketsOk(n, active, tasks, values) && b < n && tasks[b] > 0
    ensures t in active && BucketId(n, active[t]) == b && BucketId(n, values[b]) == b
  {
    assert BucketOk(n, active, b, tasks[b], values[b]);
    assert InBucket(n, active, b) != {};
    t :| t in InBucket(n, active, b);
  }

  /**
   The cached maximum is at least every active clamp and lies in the bucket of the true
   maximum: the index is never too low, and too high by less than a bucket's width, except
   in the last bucket, which is open above.
   */
  lemma CachedValueBounds(n: nat, active: map<Tid, nat>, tasks: seq<nat>, values: seq<nat>, value: nat, top: Tid)
    requires 0 < n <= SCHED_CAPACITY_SCALE && BucketsOk(n, active, tasks, values)
    requires IsBucketMax(tasks, values, value) && IsTop(active, top)
    ensures forall t | t in active :: active[t] <= value
    ensures BucketId(n, value) == BucketId(n, active[top])
    ensures value < active[top] + BucketDelta(n) || active[top] >= (n - 1) * BucketDelta(n)
  {
    var b :| 0 <= b < n && tasks[b] > 0 && values[b] == value;
    var u := BucketHasTask(n, active, tasks, values, b);
    ActiveInBucket(n, active, tasks, values, top);
    BucketIdMonotone(n, active[u], active[top]);
    BucketIdMonotone(n, active[top], value);
    SameBucketClose(n, active[top], value);
    hide BucketDelta, BucketId;
  }

  /** Because bucket values lie in their buckets, the topmost non-empty bucket holds the maximum. */
  lemma TopmostIsMax(n: nat, active: map<Tid, nat>, tasks: seq<nat>, values: seq<nat>, b: nat)
    requires 0 < n <= SCHED_CAPACITY_SCALE && BucketsOk(n, active, tasks, values)
    requires b < n && tasks[b] > 0 && forall c | b < c < n :: tasks[c] == 0
    ensures IsBucketMax(tasks, values, values[b])
  {
    forall c | 0 <= c < n && tasks[c] > 0
      ensures values[c] <= values[b] {
      var t := BucketHasTask(n, active, tasks, values, c);
      var u := BucketHasTask(n, active, tasks, values, b);
      if values[b] < values[c] { BucketIdMonotone(n, values[b], values[c]); }
    }
  }

  // ---------------------------------------------------------------- one more, one fewer

  /** A bucket's value after a task with clamp v entered it. */
  function Raised(tasks: seq<nat>, values: seq<nat>, b: nat, v: nat): nat
    requires b < |tasks| == |values|
  {
    if tasks[b] == 0 || v > values[b] then v else values[b]
  }

  lemma AddToBuckets(n: nat, active: map<Tid, nat>, tasks: seq<nat>, values: seq<nat>, t: Tid, v: nat, w: nat)
    requires 0 < n <= SCHED_CAPACITY_SCALE && BucketsOk(n, active, tasks, values) && t !in active
    requires w == Raised(tasks, values, BucketId(n, v), v)
    ensures var b := BucketId(n, v);
            BucketsOk(n, active[t := v], tasks[b := tasks[b] + 1], values[b := w])
  {
    var b := BucketId(n, v);
    var active' := active[t := v];
    var ts, vs := tasks[b := tasks[b] + 1], values[b := w];
    forall c | 0 <= c < n ensures BucketOk(n, active', c, ts[c], vs[c])
    {
      assert BucketOk(n, active, c, tasks[c], values[c]);
      if c == b {
        assert InBucket(n, active', b) == InBucket(n, active, b) + {t};
        if tasks[b] == 0 { assert InBucket(n, active, b) == {}; NoneInBucket(n, active, b); }
      } else {
        assert InBucket(n, active', c) == InBucket(n, active, c);
      }
    }
  }

  /** The cached value after a task with clamp v entered bucket b; an empty index takes v itself. */
  lemma AddKeepsMax(tasks: seq<nat>, values: seq<nat>, b: nat, v: nat, value: nat)
    requires b < |tasks| == |values|
    requires IsBucketMax(tasks, values, value) || forall c | 0 <= c < |tasks| :: tasks[c] == 0
    ensures var empty := forall c | 0 <= c < |tasks| :: tasks[c] == 0;
            IsBucketMax(tasks[b := tasks[b] + 1], values[b := Raised(tasks, values, b, v)],
                        if empty || v > value then v else value)
  {
    var ts, vs := tasks[b := tasks[b] + 1], values[b := Raised(tasks, values, b, v)];
    if IsBucketMax(tasks, values, value) {
      var c :| 0 <= c < |tasks| && tasks[c] > 0 && values[c] == value;
      if v > value { assert ts[b] > 0 && vs[b] == v; } else { assert ts[c] > 0 && vs[c] == value; }
    } else {
      assert ts[b] > 0 && vs[b] == v;
    }
  }

  /** The two consistency warnings of uclamp_rq_dec_id cannot fire for an active task. */
  lemma DecWarningsUnreachable(n: nat, active: map<Tid, nat>, tasks: seq<nat>, values: seq<nat>, value: nat, t: Tid)
    requires 0 < n <= SCHED_CAPACITY_SCALE && BucketsOk(n, active, tasks, values)
    requires IsBucketMax(tasks, values, value) && t in active
    ensures var b := BucketId(n, active[t]); tasks[b] != 0 && values[b] <= value
  {
    ActiveInBucket(n, active, tasks, values, t);
  }

  /** Emptying a bucket below the maximum, or not emptying it, leaves the cached value right. */
  lemma RemoveKeepsMax(tasks: seq<nat>, values: seq<nat>, b: nat, value: nat)
    requires b < |tasks| == |values| && tasks[b] > 0 && IsBucketMax(tasks, values, value)
    requires tasks[b] > 1 || values[b] < value
    ensures IsBucketMax(tasks[b := tasks[b] - 1], values, value)
  {
    var c :| 0 <= c < |tasks| && tasks[c] > 0 && values[c] == value;
    assert tasks[b := tasks[b] - 1][c] > 0;
  }

  lemma NoneInBucket(n: nat, active: map<Tid, nat>, b: nat)
    requires 0 < n <= SCHED_CAPACITY_SCALE && InBucket(n, active, b) == {}
    ensures forall t | t in active :: BucketId(n, active[t]) != b
  {
    forall t | t in active ensures BucketId(n, active[t]) != b { assert t !in InBucket(n, active, b); }
  }

  lemma RemoveFromBuckets(n: nat, active: map<Tid, nat>, tasks: seq<nat>, values: seq<nat>, t: Tid)
    requires 0 < n <= SCHED_CAPACITY_SCALE && BucketsOk(n, active, tasks, values) && t in active
    ensures var b := BucketId(n, active[t]);
            tasks[b] > 0 && BucketsOk(n, active - {t}, tasks[b := tasks[b] - 1], values)
  {
    var b := BucketId(n, active[t]);
    ActiveInBucket(n, active, tasks, values, t);
    var ts := tasks[b := tasks[b] - 1];
    forall c | 0 <= c < n ensures BucketOk(n, active - {t}, c, ts[c], values[c])
    {
      assert BucketOk(n, active, c, tasks[c], values[c]);
      assert InBucket(n, active - {t}, c) == InBucket(n, active, c) - {t};
    }
  }

  lemma EmptyWhenNoTasks(n: nat, active: map<Tid, nat>, tasks: seq<nat>, values: seq<nat>)
    requires 0 < n <= SCHED_CAPACITY_SCALE && BucketsOk(n, active, tasks, values)
    ensures (forall b | 0 <= b < n :: tasks[b] == 0) <==> active == map[]
  {
    if active != map[] {
      var t :| t in active;
      ActiveInBucket(n, active, tasks, values, t);
    } else {
      forall b | 0 <= b < n ensures tasks[b] == 0 {
        assert BucketOk(n, active, b, tasks[b], values[b]);
        assert InBucket(n, active, b) == {};
      }
    }
  }

  // ---------------------------------------------------------------- one clamp id of a runqueue

  /** struct uclamp_rq for clamp id `id`; se holds the clamp of every task whose active flag is set. */
  class ClampIndex {
    const id: nat
    const n: nat
    const tasks: array<nat>
    const values: array<nat>
    var value: nat
    var se: map<Tid, nat>

    ghost predicate BucketsValid()
      reads this, tasks, values
    {
      && 0 < n <= SCHED_CAPACITY_SCALE
      && tasks != values && tasks.Length == n && values.Length == n
      && BucketsOk(n, se, tasks[..], values[..])
    }

    /** With active tasks the cached value is the maximum over the non-empty buckets. */
    ghost predicate Valid()
      reads this, tasks, values
    {
      BucketsValid() && (se != map[] ==> IsBucketMax(tasks[..], values[..], value))
    }

    constructor (id: nat, n: nat)
      requires 0 < n <= SCHED_CAPACITY_SCALE
      ensures Valid() && fresh(tasks) && fresh(values)
      ensures this.id == id && this.n == n && se == map[] && value == ClampNone(id)
    {
      this.id, this.n := id, n;
      value := ClampNone(id);
      tasks := new nat[n](_ => 0);
      values := new nat[n](_ => 0);
      se := map[];
      new;
      forall b | 0 <= b < n ensures BucketOk(n, map[], b, tasks[..][b], values[..][b]) {
        assert InBucket(n, map[], b) == {};
      }
    }

    /** uclamp_rq_max_value: the topmost non-empty bucket; none means the runqueue goes idle. */
    method MaxValue(clampValue: nat) returns (v: nat, setsIdle: bool)
      requires BucketsValid()
      ensures se != map[] ==> IsBucketMax(tasks[..], values[..], v) && !setsIdle
      ensures se == map[] ==> v == (if id == UCLAMP_MAX then clampValue else 0) && setsIdle == (id == UCLAMP_MAX)
    {
      EmptyWhenNoTasks(n, se, tasks[..], values[..]);
      var b := n - 1;
      while b >= 0
        invariant -1 <= b < n
        invariant forall c | b < c < n :: tasks[c] == 0
        decreases b
      {
        if tasks[b] != 0 {
          TopmostIsMax(n, se, tasks[..], values[..], b);
          assert tasks[..][b] > 0;
          return values[b], false;
        }
        b := b - 1;
      }
      assert forall c | 0 <= c < n :: tasks[..][c] == 0;
      if id == UCLAMP_MAX {
        return clampValue, true;
      }
      return 0, false;
    }

    /** uclamp_rq_inc_id for a task whose effective clamp is v; idle is the runqueue's idle flag. */
    method Inc(t: Tid, v: nat, idle: bool)
      requires Valid() && t !in se
      requires if se == map[] then idle || value == 0 else !idle
      modifies this, tasks, values
      ensures Valid() && se == old(se)[t := v]
    {
      var b := BucketId(n, v);
      ghost var ts, vs := tasks[..], values[..];
      EmptyWhenNoTasks(n, se, ts, vs);
      AddToBuckets(n, se, ts, vs, t, v, Raised(ts, vs, b, v));
      AddKeepsMax(ts, vs, b, v, value);
      se := se[t := v];
      tasks[b] := tasks[b] + 1;
      if idle {
        value := v;
      }
      if tasks[b] == 1 || v > values[b] {
        values[b] := v;
      }
      if v > value {
        value := v;
      }
      assert tasks[..] == ts[b := ts[b] + 1] && values[..] == vs[b := Raised(ts, vs, b, v)];
      hide BucketsOk, IsBucketMax;
    }

    /** uclamp_rq_dec_id; a task that was never counted is left alone. */
    method Dec(t: Tid) returns (setsIdle: bool)
      requires Valid()
      modifies this, tasks, values
      ensures Valid() && se == old(se) - {t}
      ensures setsIdle <==> id == UCLAMP_MAX && t in old(se) && se == map[]
      ensures t in old(se) && se == map[] ==> value == if id == UCLAMP_MAX then old(se)[t] else 0
      ensures t !in old(se) ==> value == old(value)
    {
      setsIdle := false;
      if t !in se {
        assert se - {t} == se;
        return;
      }
      var v := se[t];
      var b := BucketId(n, v);
      ghost var ts, vs := tasks[..], values[..];
      DecWarningsUnreachable(n, se, ts, vs, value, t);
      RemoveFromBuckets(n, se, ts, vs, t);
      if ts[b] > 1 || vs[b] < value { RemoveKeepsMax(ts, vs, b, value); }
      tasks[b] := tasks[b] - 1;
      se := se - {t};
      assert tasks[..] == ts[b := ts[b] - 1] && values[..] == vs;
      EmptyWhenNoTasks(n, se, tasks[..], values[..]);
      if tasks[b] != 0 {
        assert tasks[..][b] != 0;
        return;
      }
      if values[b] >= value {
        value, setsIdle := MaxValue(v);
      } else {
        var c :| 0 <= c < n && tasks[..][c] > 0;
      }
    }
  }
}
