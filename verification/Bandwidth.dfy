/**
 The CFS bandwidth check (kernel/sched/core.c, tg_set_cfs_bandwidth, __cfs_schedulable,
 tg_cfs_schedulable_down, to_ratio) on a version 1 cgroup hierarchy: a group may not be given
 a larger share of a CPU than the nearest group above it that has a limit.

 Times are in nanoseconds unless said otherwise. u64 values are the naturals below W, and
 hierarchical_quota is a signed 64-bit number.
 */
module Bandwidth {
  import opened Wrappers
  import opened Errno
  import opened Arith
  import opened TgWalk

  const W := 0x1_0000_0000_0000_0000
  const RUNTIME_INF := W - 1
  const BW_UNIT := 0x10_0000
  const MAX_BW := 0xFFF_FFFF_FFFF
  const USEC := 1000
  const MAX_RUNTIME := MAX_BW * USEC
  const MIN_PERIOD := 1_000_000
  const MAX_PERIOD := 1_000_000_000

  datatype Bw = Bw(period: nat, quota: nat, burst: nat)

  /** What tg_set_cfs_bandwidth accepts before it looks at the other groups. */
  predicate BwOk(b: Bw) {
    && MIN_PERIOD <= b.period <= MAX_PERIOD
    && (b.quota == RUNTIME_INF || (MIN_PERIOD <= b.quota && b.burst <= b.quota && b.burst + b.quota <= MAX_RUNTIME))
  }

  /** Settings by group; a group not in the map has those of a new group. */
  type Config = map<Path, Bw>

  function Setting(cfg: Config, p: Path): Bw {
    if p in cfg then cfg[p] else Bw(100_000_000, RUNTIME_INF, 0)
  }

  predicate ConfigOk(cfg: Config) {
    forall p | p in cfg :: BwOk(cfg[p])
  }

  type Quotas = map<Path, int>

  function Parent(p: Path): Path
    requires p != []
  {
    p[..|p| - 1]
  }

  // ---------------------------------------------------------------- the code's arithmetic

  function ToRatio(period: nat, runtime: nat): nat {
    if runtime == RUNTIME_INF then BW_UNIT
    else if period == 0 then 0
    else runtime * BW_UNIT % W / period
  }

  function Signed(x: nat): int {
    if x >= W / 2 then x - W else x
  }

  function Unsigned(x: int): int {
    if x < 0 then x + W else x
  }

  /** The change being checked, in microseconds, as cfs_schedulable_data carries it. */
  datatype Change = Change(tg: Path, period: nat, quota: nat)

  function MakeChange(tg: Path, period: nat, quota: nat): Change {
    if quota != RUNTIME_INF then Change(tg, period / USEC, quota / USEC) else Change(tg, period, quota)
  }

  /** tg_get_cfs_quota: -1 when there is no limit. */
  function QuotaUs(b: Bw): int {
    if b.quota == RUNTIME_INF then -1 else b.quota / USEC
  }

  /** normalize_cfs_quota */
  function Normalize(cfg: Config, d: Change, p: Path): nat {
    var b := Setting(cfg, p);
    var period := if p == d.tg then d.period else b.period / USEC;
    var quota := if p == d.tg then d.quota else Unsigned(QuotaUs(b));
    if quota == RUNTIME_INF then RUNTIME_INF else ToRatio(period, quota)
  }

  /** tg_cfs_schedulable_down */
  function ScheduleDown(cfg: Config, d: Change): Visitor<Quotas> {
    (p: Path, h: Quotas) =>
      if p == [] then (h[p := Signed(RUNTIME_INF)], 0)
      else
        var quota := Signed(Normalize(cfg, d, p));
        var above := if Parent(p) in h then h[Parent(p)] else 0;
        if Unsigned(quota) == RUNTIME_INF then (h[p := above], 0)
        else if Unsigned(above) != RUNTIME_INF && quota > above then (h, -EINVAL)
        else (h[p := quota], 0)
  }

  /** tg_nop */
  function Nop(): Visitor<Quotas> {
    (p: Path, h: Quotas) => (h, 0)
  }

  // ---------------------------------------------------------------- what the check is about

  /** A group's own share in 2^-20ths of a CPU, without any rounding to a word. */
  function Ratio(b: Bw): Option<nat>
    requires b.period >= USEC
  {
    if b.quota == RUNTIME_INF then None else Some(b.quota / USEC * BW_UNIT / (b.period / USEC))
  }

  function RatioOf(cfg: Config, p: Path): Option<nat>
    requires ConfigOk(cfg)
  {
    if p == [] then None else Ratio(Setting(cfg, p))
  }

  /** The share of the nearest group with a limit, from p upwards. */
  function Effective(cfg: Config, p: Path): Option<nat>
    requires ConfigOk(cfg)
    decreases |p|
  {
    if p == [] then None
    else if RatioOf(cfg, p).Some? then RatioOf(cfg, p)
    else Effective(cfg, Parent(p))
  }

  /** A limited group has no more than its nearest limited ancestor. */
  predicate Fits(cfg: Config, p: Path)
    requires ConfigOk(cfg)
  {
    p != [] && RatioOf(cfg, p).Some? && Effective(cfg, Parent(p)).Some? ==>
      RatioOf(cfg, p).value <= Effective(cfg, Parent(p)).value
  }

  /** Every group of the subtree t at p fits. */
  ghost predicate AllFit(cfg: Config, p: Path, t: Tree)
    requires ConfigOk(cfg)
  {
    forall q | Exists(t, q) :: Fits(cfg, p + q)
  }

  ghost predicate Feasible(t: Tree, cfg: Config) {
    ConfigOk(cfg) && forall p | Exists(t, p) :: Fits(cfg, p)
  }

  function Encode(r: Option<nat>): int {
    if r.Some? then r.value else -1
  }

  /** hierarchical_quota agrees with the settings all over the subtree. */
  ghost predicate Settled(h: Quotas, cfg: Config, p: Path, t: Tree)
    requires ConfigOk(cfg)
  {
    forall q | Exists(t, q) :: p + q in h && h[p + q] == Encode(Effective(cfg, p + q))
  }

  // ---------------------------------------------------------------- no overflow

  lemma DivBound(x: nat, y: nat)
    requires x < W && y >= 1000
    ensures x / y < W / 2
  {
    assert x / y <= x / 1000 by { DivAnti(x, y, 1000); }
  }

  lemma DivAnti(x: nat, y: nat, z: nat)
    requires 0 < z <= y
    ensures x / y <= x / z
  {
    var a, b := x / y, x / z;
    assert x == y * a + x % y && x == z * b + x % z;
    MulMono(z, y, a);
    assert z * a <= x < z * (b + 1);
    if a > b { MulMono(b + 1, a, z); }
  }

  /** The shift loses nothing and no ratio can be mistaken for the infinite one. */
  lemma RatioFitsWord(b: Bw)
    requires BwOk(b) && b.quota != RUNTIME_INF
    ensures b.quota / USEC * BW_UNIT < W && Ratio(b).value < W / 2
    ensures ToRatio(b.period / USEC, b.quota / USEC) == Ratio(b).value
  {
    var q := b.quota / USEC;
    assert q <= MAX_BW;
    assert q * BW_UNIT <= MAX_BW * BW_UNIT < W;
    DivBound(q * BW_UNIT, b.period / USEC);
  }

  /** What a ratio r says: r 2^-20ths of a CPU, and not r + 1, fit into quota per period. */
  lemma RatioMeans(b: Bw)
    requires BwOk(b) && b.quota != RUNTIME_INF
    ensures var r, period, quota := Ratio(b).value, b.period / USEC, b.quota / USEC;
            r * period <= quota * BW_UNIT < (r + 1) * period
  {
    var x, period := b.quota / USEC * BW_UNIT, b.period / USEC;
    assert period > 0;
    FloorMeans(x, period);
  }

  lemma FloorMeans(x: nat, y: nat)
    requires y > 0
    ensures x / y * y <= x < (x / y + 1) * y
  {
  }

  lemma NormalizeIsRatio(cfg: Config, b: Bw, tg: Path, p: Path)
    requires ConfigOk(cfg) && BwOk(b) && tg != [] && p != []
    ensures ConfigOk(cfg[tg := b])
    ensures var r := RatioOf(cfg[tg := b], p);
            && Signed(Normalize(cfg, MakeChange(tg, b.period, b.quota), p)) == Encode(r)
            && (r.Some? ==> r.value < W / 2)
  {
    var cfg' := cfg[tg := b];
    assert BwOk(Setting(cfg', p));
    assert p != tg ==> Setting(cfg', p) == Setting(cfg, p);
    var s := Setting(cfg', p);
    if s.quota != RUNTIME_INF { RatioFitsWord(s); }
    hide ToRatio, Ratio;
  }

  lemma {:induction false} EffectiveFitsWord(cfg: Config, p: Path)
    requires ConfigOk(cfg)
    ensures Effective(cfg, p).Some? ==> Effective(cfg, p).value < W / 2
    decreases |p|
  {
    if p != [] {
      assert BwOk(Setting(cfg, p));
      if RatioOf(cfg, p).Some? { RatioFitsWord(Setting(cfg, p)); }
      EffectiveFitsWord(cfg, Parent(p));
    }
  }

  // ---------------------------------------------------------------- one group

  /** What the visitor does to a group whose parent is settled. */
  lemma DownVisit(cfg: Config, b: Bw, tg: Path, p: Path, h: Quotas)
    requires ConfigOk(cfg) && BwOk(b) && tg != []
    requires p != [] ==>
               ConfigOk(cfg[tg := b]) && Parent(p) in h && h[Parent(p)] == Encode(Effective(cfg[tg := b], Parent(p)))
    ensures ConfigOk(cfg[tg := b])
    ensures var (h', r) := ScheduleDown(cfg, MakeChange(tg, b.period, b.quota))(p, h);
            if Fits(cfg[tg := b], p) then r == 0 && h' == h[p := Encode(Effective(cfg[tg := b], p))]
            else r == -EINVAL && h' == h
  {
    if p != [] {
      NormalizeIsRatio(cfg, b, tg, p);
      EffectiveFitsWord(cfg[tg := b], Parent(p));
    } else {
      assert Signed(RUNTIME_INF) == -1 && Effective(cfg[tg := b], p).None?;
    }
    hide Normalize, RatioOf, MakeChange;
  }

  // ---------------------------------------------------------------- the whole walk

  /** Apart from the groups of the subtree at p nothing changes. */
  ghost predicate SameOutside(h: Quotas, h': Quotas, p: Path) {
    forall x | !(p <= x) :: (x in h' <==> x in h) && (x in h ==> h'[x] == h[x])
  }

  ghost predicate ChildrenFit(cfg: Config, p: Path, t: Tree, k: nat)
    requires ConfigOk(cfg)
  {
    forall i | k <= i < |t.children| :: AllFit(cfg, p + [i], t.children[i])
  }

  ghost predicate ChildrenSettled(h: Quotas, cfg: Config, p: Path, t: Tree, k: nat)
    requires ConfigOk(cfg)
  {
    forall i | k <= i < |t.children| :: Settled(h, cfg, p + [i], t.children[i])
  }

  /** The groups of a subtree are its root and those below its children. */
  lemma AllFitSplit(cfg: Config, p: Path, t: Tree)
    requires ConfigOk(cfg)
    ensures AllFit(cfg, p, t) <==> Fits(cfg, p) && ChildrenFit(cfg, p, t, 0)
  {
    hide Fits;
    if AllFit(cfg, p, t) {
      assert Exists(t, []) && p + [] == p;
      forall i: nat, q | i < |t.children| && Exists(t.children[i], q) ensures Fits(cfg, p + [i] + q) {
        assert ([i] + q)[1..] == q;
        assert Exists(t, [i] + q) && p + ([i] + q) == p + [i] + q;
      }
    }
    if Fits(cfg, p) && ChildrenFit(cfg, p, t, 0) {
      forall q | Exists(t, q) ensures Fits(cfg, p + q) {
        if q == [] { assert p + q == p; }
        else {
          assert AllFit(cfg, p + [q[0]], t.children[q[0]]);
          assert p + [q[0]] + q[1..] == p + q;
        }
      }
    }
  }

  lemma SettledJoin(h: Quotas, cfg: Config, p: Path, t: Tree)
    requires ConfigOk(cfg) && ChildrenSettled(h, cfg, p, t, 0)
    requires p in h && h[p] == Encode(Effective(cfg, p))
    ensures Settled(h, cfg, p, t)
  {
    hide Effective;
    forall q | Exists(t, q) ensures p + q in h && h[p + q] == Encode(Effective(cfg, p + q)) {
      if q == [] { assert p + q == p; }
      else {
        assert Settled(h, cfg, p + [q[0]], t.children[q[0]]);
        assert p + [q[0]] + q[1..] == p + q;
      }
    }
  }

  /** Parent of p settled (or p the root). */
  predicate ParentSettled(h: Quotas, cfg: Config, p: Path)
    requires ConfigOk(cfg)
  {
    p != [] ==> Parent(p) in h && h[Parent(p)] == Encode(Effective(cfg, Parent(p)))
  }

  ghost predicate Outcome(h: Quotas, r: (Quotas, int), cfg: Config, p: Path, t: Tree)
    requires ConfigOk(cfg)
  {
    && (if AllFit(cfg, p, t) then r.1 == 0 && Settled(r.0, cfg, p, t) else r.1 == -EINVAL)
    && SameOutside(h, r.0, p)
  }

  ghost predicate ChildrenOutcome(h: Quotas, r: (Quotas, int), cfg: Config, p: Path, t: Tree, k: nat)
    requires ConfigOk(cfg)
  {
    && (if ChildrenFit(cfg, p, t, k) then r.1 == 0 && ChildrenSettled(r.0, cfg, p, t, k) else r.1 == -EINVAL)
    && forall x | !(p < x && x[|p|] >= k) :: (x in r.0 <==> x in h) && (x in h ==> r.0[x] == h[x])
  }

  lemma {:induction false} SubtreeWalk(cfg: Config, b: Bw, tg: Path, p: Path, t: Tree, h: Quotas)
    requires ConfigOk(cfg) && BwOk(b) && tg != [] && ConfigOk(cfg[tg := b]) && ParentSettled(h, cfg[tg := b], p)
    ensures Outcome(h, Walk(p, t, ScheduleDown(cfg, MakeChange(tg, b.period, b.quota)), Nop(), h), cfg[tg := b], p, t)
    decreases t, 1
  {
    var down, cfg' := ScheduleDown(cfg, MakeChange(tg, b.period, b.quota)), cfg[tg := b];
    DownVisit(cfg, b, tg, p, h);
    AllFitSplit(cfg', p, t);
    var (h1, r1) := down(p, h);
    if r1 == 0 {
      ChildrenWalk(cfg, b, tg, p, t, 0, h1);
      var (h2, r2) := WalkChildren(p, t, 0, down, Nop(), h1);
      assert Nop()(p, h2) == (h2, 0);
      if r2 == 0 { SettledJoin(h2, cfg', p, t); }
    }
    hide AllFit, Settled, ChildrenFit, ChildrenSettled, ScheduleDown, Fits, Effective, BwOk;
  }

  lemma ThroughChild(p: Path, k: nat, x: Path)
    ensures p + [k] <= x ==> p < x && x[|p|] == k
  {
    if p + [k] <= x { assert x[|p|] == (p + [k])[|p|]; }
  }

  lemma {:induction false} ChildrenWalk(cfg: Config, b: Bw, tg: Path, p: Path, t: Tree, k: nat, h: Quotas)
    requires ConfigOk(cfg) && BwOk(b) && tg != [] && ConfigOk(cfg[tg := b]) && k <= |t.children|
    requires p in h && h[p] == Encode(Effective(cfg[tg := b], p))
    ensures ChildrenOutcome(h, WalkChildren(p, t, k, ScheduleDown(cfg, MakeChange(tg, b.period, b.quota)), Nop(), h),
        cfg[tg := b], p, t, k)
    decreases t, 0, |t.children| - k
  {
    hide ScheduleDown, BwOk, Fits, Effective, MakeChange, AllFit;
    if k < |t.children| {
      var down, cfg' := ScheduleDown(cfg, MakeChange(tg, b.period, b.quota)), cfg[tg := b];
      var c := p + [k];
      assert Parent(c) == p;
      SubtreeWalk(cfg, b, tg, c, t.children[k], h);
      var (h1, r1) := Walk(c, t.children[k], down, Nop(), h);
      assert !(c <= p);
      if r1 == 0 {
        ChildrenWalk(cfg, b, tg, p, t, k + 1, h1);
        var (h2, r2) := WalkChildren(p, t, k + 1, down, Nop(), h1);
        forall q | Exists(t.children[k], q) ensures c + q in h2 && h2[c + q] == h1[c + q] {
          assert (c + q)[|p|] == k;
        }
      }
      hide Settled;
      forall x | !(p < x && x[|p|] >= k) ensures !(c <= x) {
        ThroughChild(p, k, x);
      }
    }
  }

  /**
   The check over the whole hierarchy, for any hierarchical_quota left by earlier ones: it
   returns 0 exactly when every limited group has at most the share of its nearest limited
   ancestor, and every hierarchical_quota is then that of the nearest limited group.
   */
  lemma CheckIsExact(root: Tree, cfg: Config, b: Bw, tg: Path, h: Quotas)
    requires ConfigOk(cfg) && BwOk(b) && tg != [] && ConfigOk(cfg[tg := b])
    ensures var (h', r) := Walk([], root, ScheduleDown(cfg, MakeChange(tg, b.period, b.quota)), Nop(), h);
            && (if Feasible(root, cfg[tg := b]) then r == 0 && Settled(h', cfg[tg := b], [], root) else r == -EINVAL)
  {
    SubtreeWalk(cfg, b, tg, [], root, h);
    var cfg' := cfg[tg := b];
    forall q: Path ensures [] + q == q { }
    assert AllFit(cfg', [], root) <==> Feasible(root, cfg');
    hide Settled, Fits, BwOk, ScheduleDown, SameOutside;
  }

  /** On a feasible hierarchy the share in force is the smallest one set on the path from the root. */
  lemma {:induction false} EffectiveIsMinimum(t: Tree, cfg: Config, p: Path)
    requires ConfigOk(cfg) && Feasible(t, cfg) && Exists(t, p)
    ensures match Effective(cfg, p)
            case None => forall n | 0 <= n <= |p| :: RatioOf(cfg, p[..n]).None?
            case Some(e) =>
              && (forall n | 0 <= n <= |p| && RatioOf(cfg, p[..n]).Some? :: e <= RatioOf(cfg, p[..n]).value)
              && (exists n :: 0 <= n <= |p| && RatioOf(cfg, p[..n]) == Some(e))
    decreases |p|
  {
    assert p[..|p|] == p;
    if p != [] {
      var up := Parent(p);
      ParentExists(t, p);
      EffectiveIsMinimum(t, cfg, up);
      forall n | 0 <= n <= |up| ensures up[..n] == p[..n] { }
      assert Fits(cfg, p);
      if RatioOf(cfg, p).None? && Effective(cfg, up).Some? {
        var n :| 0 <= n <= |up| && RatioOf(cfg, up[..n]) == Effective(cfg, up);
        assert RatioOf(cfg, p[..n]) == Effective(cfg, p);
      }
    }
    hide Fits, Ratio, Feasible;
  }

  // ---------------------------------------------------------------- a refused change

  /** Outside the subtree of tg a change of tg changes nothing. */
  lemma {:induction false} UntouchedOutside(cfg: Config, b: Bw, tg: Path, x: Path)
    requires ConfigOk(cfg) && BwOk(b) && ConfigOk(cfg[tg := b]) && tg != [] && !(tg <= x)
    ensures Effective(cfg[tg := b], x) == Effective(cfg, x) && Fits(cfg[tg := b], x) == Fits(cfg, x)
    decreases |x|
  {
    if x != [] {
      assert !(tg <= Parent(x));
      UntouchedOutside(cfg, b, tg, Parent(x));
      assert RatioOf(cfg[tg := b], x) == RatioOf(cfg, x);
    }
  }

  /** A change that leaves tg its share in force leaves every group its share. */
  lemma {:induction false} SameShare(cfg: Config, b: Bw, tg: Path, x: Path)
    requires ConfigOk(cfg) && BwOk(b) && ConfigOk(cfg[tg := b]) && tg != []
    requires Effective(cfg[tg := b], tg) == Effective(cfg, tg)
    ensures Effective(cfg[tg := b], x) == Effective(cfg, x)
    decreases |x|
  {
    if x != [] && x != tg {
      SameShare(cfg, b, tg, Parent(x));
      assert RatioOf(cfg[tg := b], x) == RatioOf(cfg, x);
    }
  }

  /** So if the change is refused although tg fits, it is because tg's share changes. */
  lemma RefusedShareDiffers(root: Tree, cfg: Config, b: Bw, tg: Path)
    requires Feasible(root, cfg) && BwOk(b) && ConfigOk(cfg[tg := b]) && tg != []
    requires !Feasible(root, cfg[tg := b]) && Fits(cfg[tg := b], tg)
    ensures Effective(cfg[tg := b], tg) != Effective(cfg, tg)
  {
    var cfg' := cfg[tg := b];
    if Effective(cfg', tg) == Effective(cfg, tg) {
      forall x | Exists(root, x) ensures Fits(cfg', x) {
        if x != tg && x != [] {
          SameShare(cfg, b, tg, Parent(x));
          assert RatioOf(cfg', x) == RatioOf(cfg, x) && Fits(cfg, x);
        }
      }
    }
  }

  /** A subtree without tg: settled before the walk, settled after it. */
  lemma UntouchedSubtree(cfg: Config, b: Bw, tg: Path, p: Path, t: Tree, h: Quotas)
    requires ConfigOk(cfg) && BwOk(b) && ConfigOk(cfg[tg := b]) && tg != [] && !(tg <= p) && !(p <= tg)
    requires AllFit(cfg, p, t)
    ensures AllFit(cfg[tg := b], p, t) && (Settled(h, cfg[tg := b], p, t) <==> Settled(h, cfg, p, t))
  {
    hide Fits, Effective;
    forall q: Path ensures !(tg <= p + q) { NotBelow(tg, p, q); }
    forall q | Exists(t, q) ensures Fits(cfg[tg := b], p + q) &&
        Effective(cfg[tg := b], p + q) == Effective(cfg, p + q) {
      UntouchedOutside(cfg, b, tg, p + q);
    }
  }

  lemma NotBelow(tg: Path, p: Path, q: Path)
    requires !(tg <= p) && !(p <= tg)
    ensures !(tg <= p + q)
  {
    assert |tg| <= |p| ==> (p + q)[..|tg|] == p[..|tg|];
    assert |tg| > |p| ==> (p + q)[..|p|] == p;
  }

  /** What a refused change leaves of the quotas in the subtree of p, which holds tg. */
  ghost predicate Refusal(h: Quotas, cfg: Config, cfg': Config, tg: Path, p: Path, t: Tree)
    requires ConfigOk(cfg) && ConfigOk(cfg')
  {
    if Fits(cfg', tg) then tg in h && h[tg] == Encode(Effective(cfg', tg)) else Settled(h, cfg, p, t)
  }

  /** Walk and WalkChildren for a visitor that does nothing on the way up. */
  lemma WalkUnfold(p: Path, t: Tree, down: Visitor<Quotas>, h: Quotas)
    ensures var (h1, r1) := down(p, h);
            Walk(p, t, down, Nop(), h) == if r1 != 0 then (h1, r1) else WalkChildren(p, t, 0, down, Nop(), h1)
  {
  }

  lemma WalkChildrenUnfold(p: Path, t: Tree, k: nat, down: Visitor<Quotas>, h: Quotas)
    requires k < |t.children|
    ensures var (h1, r1) := Walk(p + [k], t.children[k], down, Nop(), h);
            WalkChildren(p, t, k, down, Nop(), h) == if r1 != 0 then (h1, r1)
                else WalkChildren(p, t, k + 1, down, Nop(), h1)
  {
  }

  /** The walk of the k-th child leaves the parent and the other children alone. */
  lemma ChildStep(cfg: Config, b: Bw, tg: Path, p: Path, t: Tree, k: nat, h: Quotas)
    requires ConfigOk(cfg) && BwOk(b) && tg != [] && ConfigOk(cfg[tg := b]) && k < |t.children|
    requires p in h && h[p] == Encode(Effective(cfg[tg := b], p))
    ensures var down := ScheduleDown(cfg, MakeChange(tg, b.period, b.quota));
            var (h1, r1) := Walk(p + [k], t.children[k], down, Nop(), h);
            && p in h1 && h1[p] == h[p]
            && (if AllFit(cfg[tg := b], p + [k], t.children[k])
                then r1 == 0 && Settled(h1, cfg[tg := b], p + [k], t.children[k]) else r1 == -EINVAL)
            && forall i: nat | i < |t.children| && i != k && Settled(h, cfg, p + [i], t.children[i]) ::
                 Settled(h1, cfg, p + [i], t.children[i])
  {
    hide ScheduleDown, MakeChange, BwOk, Effective, Exists, Walk, AllFit, Fits;
    var c := p + [k];
    assert Parent(c) == p;
    SubtreeWalk(cfg, b, tg, c, t.children[k], h);
    assert !(c <= p);
    forall i: nat, q: Path | i != k ensures !(c <= p + [i] + q) {
      assert (p + [i] + q)[|p|] == i && c[|p|] == k;
    }
  }

  lemma ChildrenFitSplit(cfg: Config, p: Path, t: Tree, k: nat)
    requires ConfigOk(cfg) && k < |t.children|
    ensures ChildrenFit(cfg, p, t, k) <==> AllFit(cfg, p + [k], t.children[k]) && ChildrenFit(cfg, p, t, k + 1)
  {
    hide AllFit;
  }

  /** Children other than the one tg is in are not concerned. */
  lemma OtherChild(cfg: Config, b: Bw, tg: Path, p: Path, t: Tree, i: nat, h: Quotas)
    requires ConfigOk(cfg) && BwOk(b) && ConfigOk(cfg[tg := b]) && p < tg && i < |t.children| && i != tg[|p|]
    requires AllFit(cfg, p + [i], t.children[i])
    ensures AllFit(cfg[tg := b], p + [i], t.children[i])
    ensures Settled(h, cfg[tg := b], p + [i], t.children[i]) <==> Settled(h, cfg, p + [i], t.children[i])
  {
    var c := p + [i];
    assert c[|p|] == i;
    UntouchedSubtree(cfg, b, tg, c, t.children[i], h);
  }

  /** The walk up to the refusal: what precedes tg is written again as it was, and tg is written if it fits. */
  lemma {:induction false} RefusedWalk(cfg: Config, b: Bw, tg: Path, p: Path, t: Tree, h: Quotas)
    requires ConfigOk(cfg) && BwOk(b) && tg != [] && ConfigOk(cfg[tg := b]) && ParentSettled(h, cfg[tg := b], p)
    requires p <= tg && Exists(t, tg[|p|..]) && Settled(h, cfg, p, t) && AllFit(cfg, p, t) &&
        !AllFit(cfg[tg := b], p, t)
    ensures var (h', r) := Walk(p, t, ScheduleDown(cfg, MakeChange(tg, b.period, b.quota)), Nop(), h);
            r == -EINVAL && Refusal(h', cfg, cfg[tg := b], tg, p, t)
    decreases t, 1
  {
    hide ConfigOk, AllFit, Settled, ScheduleDown, Fits, Effective, BwOk, MakeChange, ChildrenFit, ChildrenSettled,
        Exists;
    hide Walk, WalkChildren, Nop;
    var down, cfg' := ScheduleDown(cfg, MakeChange(tg, b.period, b.quota)), cfg[tg := b];
    DownVisit(cfg, b, tg, p, h);
    WalkUnfold(p, t, down, h);
    AllFitSplit(cfg', p, t);
    AllFitSplit(cfg, p, t);
    SettledSplit(h, cfg, p, t);
    var (h1, r1) := down(p, h);
    if p == tg {
      if r1 == 0 { ChildrenWalk(cfg, b, tg, p, t, 0, h1); }
    } else {
      assert p < tg && !(tg <= p);
      UntouchedOutside(cfg, b, tg, p);
      assert h1 == h;
      ChildOnPath(t, tg[|p|..]);
      assert tg[|p|..][1..] == tg[|p| + 1..];
      RefusedChildren(cfg, b, tg, p, t, 0, h);
      if !Fits(cfg', tg) { SettledJoin(WalkChildren(p, t, 0, down, Nop(), h).0, cfg, p, t); }
    }
  }

  lemma ChildOnPath(t: Tree, q: Path)
    requires Exists(t, q) && q != []
    ensures q[0] < |t.children| && Exists(t.children[q[0]], q[1..])
  {
  }

  lemma SettledSplit(h: Quotas, cfg: Config, p: Path, t: Tree)
    requires ConfigOk(cfg) && Settled(h, cfg, p, t)
    ensures p in h && h[p] == Encode(Effective(cfg, p)) && ChildrenSettled(h, cfg, p, t, 0)
  {
    hide Effective, Exists;
    SettledHere(h, cfg, p, t);
    forall i | 0 <= i < |t.children| ensures Settled(h, cfg, p + [i], t.children[i]) {
      SettledChild(h, cfg, p, t, i);
    }
  }

  lemma SettledHere(h: Quotas, cfg: Config, p: Path, t: Tree)
    requires ConfigOk(cfg) && Settled(h, cfg, p, t)
    ensures p in h && h[p] == Encode(Effective(cfg, p))
  {
    hide Effective;
    assert Exists(t, []) && p + [] == p;
  }

  lemma SettledChild(h: Quotas, cfg: Config, p: Path, t: Tree, i: nat)
    requires ConfigOk(cfg) && Settled(h, cfg, p, t) && i < |t.children|
    ensures Settled(h, cfg, p + [i], t.children[i])
  {
    hide Effective;
    forall q | Exists(t.children[i], q)
      ensures p + [i] + q in h && h[p + [i] + q] == Encode(Effective(cfg, p + [i] + q))
    {
      ChildPath(t, i, q);
      assert p + ([i] + q) == p + [i] + q;
    }
  }

  lemma ChildPath(t: Tree, i: nat, q: Path)
    requires i < |t.children| && Exists(t.children[i], q)
    ensures Exists(t, [i] + q)
  {
    assert ([i] + q)[1..] == q;
  }

  lemma {:induction false} RefusedChildren(cfg: Config, b: Bw, tg: Path, p: Path, t: Tree, k: nat, h: Quotas)
    requires ConfigOk(cfg) && BwOk(b) && tg != [] && ConfigOk(cfg[tg := b]) && p < tg
    requires p in h && h[p] == Encode(Effective(cfg[tg := b], p))
    requires k <= tg[|p|] < |t.children| && Exists(t.children[tg[|p|]], tg[|p| + 1..])
    requires ChildrenSettled(h, cfg, p, t, 0) && ChildrenFit(cfg, p, t, 0) && !ChildrenFit(cfg[tg := b], p, t, k)
    ensures var (h', r) := WalkChildren(p, t, k, ScheduleDown(cfg, MakeChange(tg, b.period, b.quota)), Nop(), h);
            && r == -EINVAL && p in h' && h'[p] == h[p]
            && if Fits(cfg[tg := b], tg) then tg in h' && h'[tg] == Encode(Effective(cfg[tg := b], tg))
               else ChildrenSettled(h', cfg, p, t, 0)
    decreases t, 0, |t.children| - k
  {
    hide ConfigOk, AllFit, Settled, ScheduleDown, Fits, Effective, BwOk, MakeChange, Exists, Walk, WalkChildren, Nop;
    var down, cfg' := ScheduleDown(cfg, MakeChange(tg, b.period, b.quota)), cfg[tg := b];
    var c, child := p + [k], t.children[k];
    WalkChildrenUnfold(p, t, k, down, h);
    ChildStep(cfg, b, tg, p, t, k, h);
    ChildrenFitSplit(cfg', p, t, k);
    var (h1, r1) := Walk(c, child, down, Nop(), h);
    if k < tg[|p|] {
      OtherChild(cfg, b, tg, p, t, k, h1);
      RefusedChildren(cfg, b, tg, p, t, k + 1, h1);
    } else {
      forall i | k + 1 <= i < |t.children| ensures AllFit(cfg', p + [i], t.children[i]) {
        OtherChild(cfg, b, tg, p, t, i, h);
      }
      assert Parent(c) == p && c <= tg by { assert tg[..|p| + 1] == tg[..|p|] + [tg[|p|]]; }
      RefusedWalk(cfg, b, tg, c, child, h);
    }
  }

  /**
   Exactly when a refused change leaves the quotas disturbed: they stay settled if and only
   if tg itself does not fit under its ancestors. Otherwise tg's new share has been written
   by the time a group below it is found not to fit.
   */
  lemma RefusalKeepsQuotasExactly(root: Tree, cfg: Config, b: Bw, tg: Path, h: Quotas)
    requires Feasible(root, cfg) && BwOk(b) && tg != [] && Exists(root, tg) && ConfigOk(cfg[tg := b])
    requires Settled(h, cfg, [], root) && !Feasible(root, cfg[tg := b])
    ensures var (h', r) := Walk([], root, ScheduleDown(cfg, MakeChange(tg, b.period, b.quota)), Nop(), h);
            && r == -EINVAL
            && (Settled(h', cfg, [], root) <==> !Fits(cfg[tg := b], tg))
            && (Fits(cfg[tg := b], tg) ==>
                  tg in h' && h'[tg] == Encode(Effective(cfg[tg := b], tg)) != Encode(Effective(cfg, tg)))
  {
    var cfg' := cfg[tg := b];
    forall q: Path ensures [] + q == q { }
    assert tg[0..] == tg;
    assert AllFit(cfg, [], root) && (AllFit(cfg', [], root) <==> Feasible(root, cfg'));
    RefusedWalk(cfg, b, tg, [], root, h);
    if Fits(cfg', tg) { RefusedShareDiffers(root, cfg, b, tg); }
    hide Fits, BwOk, ScheduleDown, AllFit, Feasible, Effective;
  }

  // ---------------------------------------------------------------- new groups

  /** The tree with one more child under the group at p. */
  function AddChild(t: Tree, p: Path): Tree
    requires Exists(t, p)
  {
    if p == [] then Tree(t.children + [Tree([])])
    else Tree(t.children[p[0] := AddChild(t.children[p[0]], p[1..])])
  }

  lemma {:induction false} AddChildGroups(t: Tree, p: Path, q: Path)
    requires Exists(t, p)
    ensures Exists(AddChild(t, p), q) <==> Exists(t, q) || q == p + [|At(t, p).children|]
    decreases |p|
  {
    var new_ := p + [|At(t, p).children|];
    if p == [] {
      if q != [] { assert q[0] == |t.children| && q[1..] == [] <==> q == [|t.children|]; }
    } else if q != [] && q[0] == p[0] {
      AddChildGroups(t.children[p[0]], p[1..], q[1..]);
      assert new_[1..] == p[1..] + [|At(t, p).children|] && new_[0] == p[0];
      assert q == new_ <==> q[1..] == new_[1..];
    }
  }

  lemma NewGroupFits(t: Tree, p: Path, cfg: Config)
    requires Feasible(t, cfg) && Exists(t, p) && p + [|At(t, p).children|] !in cfg
    ensures Feasible(AddChild(t, p), cfg)
  {
    forall q | Exists(AddChild(t, p), q) ensures Fits(cfg, q) { AddChildGroups(t, p, q); }
  }

  // ---------------------------------------------------------------- tg_set_cfs_bandwidth

  /** The groups and their settings. */
  class Hierarchy {
    var root: Tree
    var cfg: Config
    var hier: Quotas

    /** No group exceeds what is above it. */
    ghost predicate Valid()
      reads this
    {
      Feasible(root, cfg) && forall p | p in cfg :: Exists(root, p) && p != []
    }

    constructor ()
      ensures Valid() && root == Tree([]) && cfg == map[]
    {
      root, cfg, hier := Tree([]), map[], map[];
      new;
      assert forall p | Exists(root, p) :: Fits(cfg, p);
    }

    /** A group is created without a limit. */
    method AddGroup(parent: Path) returns (group: Path)
      requires Valid() && Exists(root, parent)
      modifies this`root
      ensures Valid() && group !in old(cfg)
      ensures forall p :: Exists(root, p) <==> old(Exists(root, p)) || p == group
    {
      hide Feasible, AddChild;
      group := parent + [|At(root, parent).children|];
      ChildExists(root, parent, |At(root, parent).children|);
      NewGroupFits(root, parent, cfg);
      forall p ensures Exists(AddChild(root, parent), p) <==> Exists(root, p) || p == group {
        AddChildGroups(root, parent, p);
      }
      root := AddChild(root, parent);
    }

    /** __cfs_schedulable; burst plays no part in it. A refusal disturbs the quotas exactly if tg itself fits. */
    method CfsSchedulable(tg: Path, period: nat, quota: nat, ghost burst: nat) returns (ret: int)
      requires ConfigOk(cfg) && tg != [] && BwOk(Bw(period, quota, burst))
      modifies this`hier
      ensures ConfigOk(cfg[tg := Bw(period, quota, burst)])
      ensures var cfg' := cfg[tg := Bw(period, quota, burst)];
              if Feasible(root, cfg') then ret == 0 && Settled(hier, cfg', [], root) else ret == -EINVAL
      ensures Feasible(root, cfg) && Exists(root, tg) && old(Settled(hier, cfg, [], root)) && ret != 0 ==>
                (Settled(hier, cfg, [], root) <==> !Fits(cfg[tg := Bw(period, quota, burst)], tg))
    {
      hide Feasible, Settled, BwOk, Fits;
      var d := Change(tg, period, quota);
      if quota != RUNTIME_INF {
        d := d.(period := d.period / USEC, quota := d.quota / USEC);
      }
      assert ConfigOk(cfg[tg := Bw(period, quota, burst)]);
      CheckIsExact(root, cfg, Bw(period, quota, burst), tg, hier);
      assert At(root, []) == root;
      if Feasible(root, cfg) && Exists(root, tg) && Settled(hier, cfg, [], root) &&
          !Feasible(root, cfg[tg := Bw(period, quota, burst)]) {
        RefusalKeepsQuotasExactly(root, cfg, Bw(period, quota, burst), tg, hier);
      }
      ret, hier := WalkTgTreeFrom(root, [], ScheduleDown(cfg, d), Nop(), hier);
    }

    /**
     tg_set_cfs_bandwidth: a change is accepted exactly when it is within bounds and leaves
     every group within its limits; a refused one changes no setting.
     */
    method SetBandwidth(tg: Path, period: nat, quota: nat, burst: nat) returns (ret: int)
      requires Valid() && Exists(root, tg)
      modifies this`cfg, this`hier
      ensures Valid() && ret in {0, -EINVAL}
      ensures var b := Bw(period, quota, burst);
              ret == 0 <==> tg != [] && BwOk(b) && Feasible(root, old(cfg)[tg := b])
      ensures cfg == if ret == 0 then old(cfg)[tg := Bw(period, quota, burst)] else old(cfg)
      ensures ret == 0 ==> Settled(hier, cfg, [], root)
      ensures var b := Bw(period, quota, burst);
              ret != 0 && old(Settled(hier, cfg, [], root)) ==>
                (Settled(hier, cfg, [], root) <==> !(tg != [] && BwOk(b) && Fits(old(cfg)[tg := b], tg)))
    {
      ret := -EINVAL;
      if tg == [] {
        return;
      }
      if quota < MIN_PERIOD || period < MIN_PERIOD {
        return;
      }
      if period > MAX_PERIOD {
        return;
      }
      if quota != RUNTIME_INF && quota > MAX_RUNTIME {
        return;
      }
      if quota != RUNTIME_INF && (burst > quota || burst + quota > MAX_RUNTIME) {
        return;
      }
      hide Feasible, Settled;
      ret := CfsSchedulable(tg, period, quota, burst);
      if ret != 0 {
        return;
      }
      cfg := cfg[tg := Bw(period, quota, burst)];
    }

    /** tg_set_cfs_quota: microseconds, negative for no limit. What was set reads back. */
    method SetQuota(tg: Path, us: int) returns (ret: int)
      requires Valid() && Exists(root, tg) && us < W / 2
      modifies this`cfg, this`hier
      ensures Valid() && ret in {0, -EINVAL}
      ensures var b := old(Setting(cfg, tg)).(quota := if us < 0 then RUNTIME_INF else us * USEC);
              && (ret == 0 <==> tg != [] && BwOk(b) && Feasible(root, old(cfg)[tg := b]))
              && cfg == (if ret == 0 then old(cfg)[tg := b] else old(cfg))
      ensures ret == 0 ==> QuotaUs(Setting(cfg, tg)) == (if us < 0 then -1 else us)
    {
      assert us >= 0 ==> us * USEC != RUNTIME_INF;
      hide Feasible, Settled;
      var quota;
      if us < 0 {
        quota := RUNTIME_INF;
      } else if us <= RUNTIME_INF / USEC {
        quota := us * USEC;
      } else {
        return -EINVAL;
      }
      var b := Setting(cfg, tg);
      ret := SetBandwidth(tg, b.period, quota, b.burst);
    }
  }

  // ---------------------------------------------------------------- after a refusal

  function SmallTree(): Tree {
    Tree([Tree([Tree([])])])
  }

  /** A group and its only child, each with a whole CPU. */
  function FullShares(): Config {
    map[[0] := Bw(100_000_000, 100_000_000, 0), [0, 0] := Bw(100_000_000, 100_000_000, 0)]
  }

  function Half(): Bw {
    Bw(100_000_000, 50_000_000, 0)
  }

  lemma FullSharesFeasible()
    ensures ConfigOk(FullShares()) && Feasible(SmallTree(), FullShares()) &&
        Effective(FullShares(), [0]) == Some(BW_UNIT)
  {
    var cfg, mid, leaf := FullShares(), Tree([Tree([])]), Tree([]);
    assert Parent([0]) == [] && Parent([0, 0]) == [0];
    assert RatioOf(cfg, [0, 0]) == RatioOf(cfg, [0]) == Some(BW_UNIT) == Effective(cfg, [0]);
    forall p | Exists(SmallTree(), p) ensures Fits(cfg, p) {
      if p != [] {
        var q := p[1..];
        assert p[0] == 0 && Exists(mid, q);
        if q == [] {
          assert p == [0];
        } else {
          assert q[0] == 0 && Exists(leaf, q[1..]) && q[1..] == [];
          assert p == [0, 0];
        }
      }
    }
  }

  lemma HalvedShares()
    ensures var cfg' := FullShares()[[0] := Half()];
            && BwOk(Half()) && ConfigOk(cfg') && Effective(cfg', []).None?
            && Fits(cfg', [0]) && Effective(cfg', [0]) == Some(BW_UNIT / 2) && !Fits(cfg', [0, 0])
  {
    var cfg' := FullShares()[[0] := Half()];
    assert Parent([0]) == [] && Parent([0, 0]) == [0];
    assert RatioOf(cfg', [0]) == Some(BW_UNIT / 2) && RatioOf(cfg', [0, 0]) == Some(BW_UNIT);
  }

  /**
   A refused change can leave a hierarchical_quota behind that no setting explains. Here a
   group with a whole CPU and a child with as much is to be halved: the walk writes the
   halved share to the group before it refuses the child.
   */
  lemma RefusalLeavesQuota(h: Quotas)
    ensures ConfigOk(FullShares()) && Feasible(SmallTree(), FullShares()) && BwOk(Half())
    ensures Effective(FullShares(), [0]) == Some(BW_UNIT)
    ensures var down := ScheduleDown(FullShares(), MakeChange([0], Half().period, Half().quota));
            var (h', r) := Walk([], SmallTree(), down, Nop(), h);
            r == -EINVAL && [0] in h' && h'[[0]] == BW_UNIT / 2
  {
    FullSharesFeasible();
    HalvedShares();
    var cfg, b, tg, root: Path := FullShares(), Half(), [0], [];
    var leaf := Tree([]);
    var mid := Tree([leaf]);
    var down := ScheduleDown(cfg, MakeChange(tg, b.period, b.quota));
    var h1 := h[root := -1];
    var h2 := h1[tg := BW_UNIT / 2];
    assert Parent([0]) == [] && Parent([0, 0]) == [0] && [] + [0] == [0] && [0] + [0] == [0, 0];
    hide ScheduleDown, Effective, Fits, FullShares, Half, Nop, BwOk, ConfigOk, RatioOf, MakeChange;
    DownVisit(cfg, b, tg, root, h);
    DownVisit(cfg, b, tg, tg, h1);
    DownVisit(cfg, b, tg, [0, 0], h2);
    assert down(root, h) == (h1, 0) && down(tg, h1) == (h2, 0) && down([0, 0], h2) == (h2, -EINVAL);
    assert Walk([0, 0], leaf, down, Nop(), h2) == (h2, -EINVAL);
    assert WalkChildren(tg, mid, 0, down, Nop(), h2) == (h2, -EINVAL);
    assert Walk(tg, mid, down, Nop(), h1) == (h2, -EINVAL);
    assert WalkChildren(root, SmallTree(), 0, down, Nop(), h1) == (h2, -EINVAL);
  }
}
