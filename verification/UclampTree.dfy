/**
 Effective utilization clamps of a task-group tree (kernel/sched/core.c,
 cpu_util_update_eff): one pre-order pass from a group whose request changed, which skips
 the descendants of a group whose effective clamps did not change.

 The groups are numbered in pre-order, as css_for_each_descendant_pre visits them; the
 descendants of a group are then the groups that directly follow it and whose parents do
 not come before it.
 */
module UclampTree {
  const ROOT: nat := 0

  datatype Clamp = Clamp(min: nat, max: nat)

  /** parent[i] is the parent of group i; group 0 is the root. */
  predicate PreOrder(parent: seq<nat>) {
    && |parent| > 0
    && (forall i | 0 < i < |parent| :: parent[i] < i)
    // each group hangs off the path from the root to the group visited just before it
    && (forall i | 1 < i < |parent| :: OnPath(parent, parent[i], i - 1))
  }

  /** a is i or an ancestor of i. */
  predicate OnPath(parent: seq<nat>, a: nat, i: nat) {
    a == i || (0 < i < |parent| && parent[i] < i && OnPath(parent, a, parent[i]))
  }

  /** One past the last descendant of top among the groups from i on. */
  function End(parent: seq<nat>, top: nat, i: nat): (e: nat)
    requires top < i <= |parent|
    ensures i <= e <= |parent|
    decreases |parent| - i
  {
    if i < |parent| && parent[i] >= top then End(parent, top, i + 1) else i
  }

  function Min(a: nat, b: nat): nat {
    if a <= b then a else b
  }

  /** The clamps a group gets from its own request and its parent's effective clamps. */
  function Local(req: Clamp, up: Clamp): Clamp {
    var mx := Min(req.max, up.max);
    Clamp(Min(Min(req.min, up.min), mx), mx)
  }

  /** The root has no parent to be capped by. */
  function RootLocal(req: Clamp): Clamp {
    Clamp(Min(req.min, req.max), req.max)
  }

  /** Full recomputation from the requests. */
  function Full(parent: seq<nat>, req: seq<Clamp>, i: nat): Clamp
    requires PreOrder(parent) && |req| == |parent| && i < |parent|
  {
    if i == ROOT then RootLocal(req[ROOT]) else Local(req[i], Full(parent, req, parent[i]))
  }

  /** The least requested maximum on the path from the root to i. */
  function PathMax(parent: seq<nat>, req: seq<Clamp>, i: nat): nat
    requires PreOrder(parent) && |req| == |parent| && i < |parent|
  {
    if i == ROOT then req[ROOT].max else Min(req[i].max, PathMax(parent, req, parent[i]))
  }

  /** The least of all minima and maxima requested on the path from the root to i. */
  function PathMin(parent: seq<nat>, req: seq<Clamp>, i: nat): nat
    requires PreOrder(parent) && |req| == |parent| && i < |parent|
  {
    var own := Min(req[i].min, req[i].max);
    if i == ROOT then own else Min(own, PathMin(parent, req, parent[i]))
  }

  /** What the effective clamps mean. */
  lemma {:induction false} FullIsPathMinimum(parent: seq<nat>, req: seq<Clamp>, i: nat)
    requires PreOrder(parent) && |req| == |parent| && i < |parent|
    ensures Full(parent, req, i).max == PathMax(parent, req, i)
    ensures Full(parent, req, i).min == PathMin(parent, req, i)
    ensures PathMin(parent, req, i) <= PathMax(parent, req, i)
  {
    if i != ROOT {
      FullIsPathMinimum(parent, req, parent[i]);
      var up := Full(parent, req, parent[i]);
      assert Full(parent, req, i) == Local(req[i], up) && up.min <= up.max;
    }
  }

  /** Every group's effective clamps follow from its request and its parent's effective clamps. */
  predicate LocalAt(parent: seq<nat>, req: seq<Clamp>, eff: seq<Clamp>, i: nat)
    requires PreOrder(parent) && |req| == |eff| == |parent| && i < |parent|
  {
    eff[i] == if i == ROOT then RootLocal(req[ROOT]) else Local(req[i], eff[parent[i]])
  }

  predicate AllFull(parent: seq<nat>, req: seq<Clamp>, eff: seq<Clamp>)
    requires PreOrder(parent) && |req| == |eff| == |parent|
  {
    forall i | 0 <= i < |parent| :: eff[i] == Full(parent, req, i)
  }

  // ---------------------------------------------------------------- subtrees of a pre-order

  /** Inside the descendants of top parents are top or a descendant of it, and End passes all of them. */
  lemma {:induction false} EndFacts(parent: seq<nat>, top: nat, i: nat)
    requires PreOrder(parent) && top < i <= |parent|
    ensures forall j | i <= j < End(parent, top, i) :: parent[j] >= top
    ensures var e := End(parent, top, i); e < |parent| ==> parent[e] < top
    decreases |parent| - i
  {
    if i < |parent| && parent[i] >= top { EndFacts(parent, top, i + 1); }
  }

  /** A group's descendants end no later than those of an ancestor. */
  lemma {:induction false} EndNested(parent: seq<nat>, top: nat, k: nat, i: nat)
    requires PreOrder(parent) && top <= k < i <= |parent|
    ensures End(parent, k, i) <= End(parent, top, i)
    decreases |parent| - i
  {
    if i < |parent| && parent[i] >= k { EndNested(parent, top, k, i + 1); }
  }

  lemma {:induction false} EndSame(parent: seq<nat>, top: nat, i: nat, j: nat)
    requires PreOrder(parent) && top < i <= |parent| && i <= j <= End(parent, top, i)
    ensures End(parent, top, j) == End(parent, top, i)
    decreases j - i
  {
    if i < j {
      EndSame(parent, top, i + 1, j);
    }
  }

  /** The contiguous range is the subtree: j follows top and is in range exactly when top is an ancestor of j. */
  lemma {:induction false} RangeIsSubtree(parent: seq<nat>, top: nat, j: nat)
    requires PreOrder(parent) && top < j < |parent|
    ensures j < End(parent, top, top + 1) <==> OnPath(parent, top, j)
    decreases j
  {
    var e := End(parent, top, top + 1);
    EndFacts(parent, top, top + 1);
    if j < e {
      if parent[j] != top { RangeIsSubtree(parent, top, parent[j]); }
    } else {
      if OnPath(parent, top, j) {
        BeyondIsOutside(parent, top, j);
      }
    }
  }

  /** Past the end of top's descendants no group has top on its path. */
  lemma {:induction false} BeyondIsOutside(parent: seq<nat>, top: nat, j: nat)
    requires PreOrder(parent) && top < |parent| && End(parent, top, top + 1) <= j < |parent|
    ensures !OnPath(parent, top, j)
    decreases j
  {
    var e := End(parent, top, top + 1);
    EndFacts(parent, top, top + 1);
    if j == e {
      BelowIsOutside(parent, top, parent[j]);
    } else {
      // parent[j] is on the path of j - 1, which does not pass through top
      BeyondIsOutside(parent, top, j - 1);
      if OnPath(parent, top, parent[j]) { PathSuffix(parent, top, parent[j], j - 1); }
    }
  }

  lemma {:induction false} BelowIsOutside(parent: seq<nat>, top: nat, i: nat)
    requires i < top
    ensures !OnPath(parent, top, i)
  {
    if 0 < i < |parent| && parent[i] < i { BelowIsOutside(parent, top, parent[i]); }
  }

  lemma {:induction false} PathSuffix(parent: seq<nat>, a: nat, b: nat, i: nat)
    requires OnPath(parent, b, i) && OnPath(parent, a, b)
    ensures OnPath(parent, a, i)
  {
    if b != i { PathSuffix(parent, a, b, parent[i]); }
  }

  // ---------------------------------------------------------------- the pruned pass

  /** If group k already has its right clamps, so has every descendant that is consistent with its parent. */
  lemma {:induction false} PrunedAreFull(parent: seq<nat>, req: seq<Clamp>, eff: seq<Clamp>, k: nat, j: nat)
    requires PreOrder(parent) && |req| == |eff| == |parent|
    requires k < j < |parent| && j < End(parent, k, k + 1) && eff[k] == Full(parent, req, k)
    requires forall i | k < i < End(parent, k, k + 1) :: LocalAt(parent, req, eff, i)
    ensures eff[j] == Full(parent, req, j)
  {
    EndFacts(parent, k, k + 1);
    assert LocalAt(parent, req, eff, j);
    if parent[j] != k { PrunedAreFull(parent, req, eff, k, parent[j]); }
  }

  /** Outside the descendants of top all clamps are right; inside, each but top's own fits its parent's. */
  ghost predicate StaleOnlyAt(parent: seq<nat>, req: seq<Clamp>, eff: seq<Clamp>, top: nat)
    requires PreOrder(parent) && |req| == |eff| == |parent| && top < |parent|
  {
    var e := End(parent, top, top + 1);
    && (forall j | 0 <= j < top || e <= j < |parent| :: eff[j] == Full(parent, req, j))
    && (forall j | top < j < e :: LocalAt(parent, req, eff, j))
  }

  /** Full, one level unfolded into the code's comparisons. */
  lemma FullStep(parent: seq<nat>, req: seq<Clamp>, i: nat)
    requires PreOrder(parent) && |req| == |parent| && i < |parent|
    ensures i != ROOT ==> parent[i] < i
    ensures var c := req[i];
            var up := if i == ROOT then c else Full(parent, req, parent[i]);
            var mn, mx := if c.min > up.min then up.min else c.min, if c.max > up.max then up.max else c.max;
            Full(parent, req, i) == Clamp(if mn > mx then mx else mn, mx)
  {
  }

  /** Skipping the descendants of css when its clamps did not change. */
  lemma SkipIsFull(parent: seq<nat>, req: seq<Clamp>, before: seq<Clamp>, eff: seq<Clamp>, top: nat, css: nat)
    requires PreOrder(parent) && |req| == |before| == |eff| == |parent|
    requires top < |parent| && top <= css < End(parent, top, top + 1) && StaleOnlyAt(parent, req, before, top)
    requires forall j | css <= j < End(parent, top, top + 1) :: eff[j] == before[j]
    requires eff[css] == Full(parent, req, css)
    ensures var next := End(parent, css, css + 1);
            next <= End(parent, top, top + 1) && forall j | css < j < next :: eff[j] == Full(parent, req, j)
  {
    var next := End(parent, css, css + 1);
    EndSame(parent, top, top + 1, css + 1);
    EndNested(parent, top, css, css + 1);
    EndFacts(parent, css, css + 1);
    forall i | css < i < next ensures LocalAt(parent, req, eff, i) {
      assert LocalAt(parent, req, before, i);
    }
    forall j | css < j < next ensures eff[j] == Full(parent, req, j) { PrunedAreFull(parent, req, eff, css, j); }
  }

  /** The state of the pass when it stands at group css: everything before css is done, the rest untouched. */
  ghost predicate PassOk(parent: seq<nat>, req: seq<Clamp>, before: seq<Clamp>, eff: seq<Clamp>, top: nat, css: nat,
      updated: seq<nat>)
    requires PreOrder(parent) && |req| == |before| == |eff| == |parent| && top < |parent|
  {
    var e := End(parent, top, top + 1);
    && top <= css <= e
    && (forall j | 0 <= j < css || e <= j < |parent| :: eff[j] == Full(parent, req, j))
    && (forall j | 0 <= j < top || css <= j < |parent| :: eff[j] == before[j])
    && (forall j: nat :: j in updated <==> top <= j < css && eff[j] != before[j])
    && (forall a, b | 0 <= a < b < |updated| :: updated[a] < updated[b])
  }

  lemma PassSkips(parent: seq<nat>, req: seq<Clamp>, before: seq<Clamp>, eff: seq<Clamp>, top: nat, css: nat,
      updated: seq<nat>)
    requires PreOrder(parent) && |req| == |before| == |eff| == |parent| && top < |parent|
    requires StaleOnlyAt(parent, req, before, top) && PassOk(parent, req, before, eff, top, css, updated)
    requires css < End(parent, top, top + 1) && eff[css] == Full(parent, req, css)
    ensures PassOk(parent, req, before, eff, top, End(parent, css, css + 1), updated)
  {
    SkipIsFull(parent, req, before, eff, top, css);
    hide Full, OnPath, StaleOnlyAt;
  }

  lemma PassWrites(parent: seq<nat>, req: seq<Clamp>, before: seq<Clamp>, eff: seq<Clamp>, top: nat, css: nat,
      updated: seq<nat>)
    requires PreOrder(parent) && |req| == |before| == |eff| == |parent| && top < |parent|
    requires PassOk(parent, req, before, eff, top, css, updated)
    requires css < End(parent, top, top + 1) && eff[css] != Full(parent, req, css)
    ensures PassOk(parent, req, before, eff[css := Full(parent, req, css)], top, css + 1, updated + [css])
  {
    hide Full, OnPath;
    assert forall j: nat :: j in updated + [css] <==> j in updated || j == css;
    forall a | 0 <= a < |updated| ensures updated[a] < css { assert updated[a] in updated; }
  }

  /**
   cpu_util_update_eff: after the pass every group's clamps are those of a full
   recomputation, and exactly the groups whose clamps changed were told to refresh their
   tasks, parents first.
   */
  method UpdateEff(parent: seq<nat>, req: seq<Clamp>, eff: array<Clamp>, top: nat) returns (updated: seq<nat>)
    requires PreOrder(parent) && |req| == eff.Length == |parent| && top < |parent|
    requires StaleOnlyAt(parent, req, eff[..], top)
    modifies eff
    ensures AllFull(parent, req, eff[..])
    ensures forall j: nat :: j in updated <==> j < |parent| && eff[j] != old(eff[j])
    ensures forall a, b | 0 <= a < b < |updated| :: updated[a] < updated[b]
  {
    updated := [];
    var e := End(parent, top, top + 1);
    ghost var before := eff[..];
    var css := top;
    while css < e
      invariant top <= css <= e <= |parent|
      invariant PassOk(parent, req, before, eff[..], top, css, updated)
      decreases e - css
    {
      hide OnPath, StaleOnlyAt;
      FullStep(parent, req, css);
      var mx := req[css].max;
      var mn := req[css].min;
      if css != ROOT {
        var up := eff[parent[css]];
        assert up == eff[..][parent[css]] == Full(parent, req, parent[css]);
        if mn > up.min { mn := up.min; }
        if mx > up.max { mx := up.max; }
      }
      if mn > mx { mn := mx; }
      assert Clamp(mn, mx) == Full(parent, req, css);
      hide PassOk, Full;
      if eff[css] == Clamp(mn, mx) {
        assert eff[..][css] == Full(parent, req, css);
        PassSkips(parent, req, before, eff[..], top, css, updated);
        assert End(parent, css, css + 1) <= e by {
          EndSame(parent, top, top + 1, css + 1);
          EndNested(parent, top, css, css + 1);
        }
        css := End(parent, css, css + 1);
      } else {
        PassWrites(parent, req, before, eff[..], top, css, updated);
        ghost var was := eff[..];
        eff[css] := Clamp(mn, mx);
        assert eff[..] == was[css := Full(parent, req, css)];
        updated := updated + [css];
        css := css + 1;
      }
    }
    assert forall j | 0 <= j < |parent| :: eff[..][j] == eff[j];
  }

  // ---------------------------------------------------------------- one group's request changes

  lemma {:induction false} FullFrame(parent: seq<nat>, req: seq<Clamp>, g: nat, c: Clamp, i: nat)
    requires PreOrder(parent) && |req| == |parent| && g < |parent| && i < |parent| && !OnPath(parent, g, i)
    ensures Full(parent, req[g := c], i) == Full(parent, req, i)
  {
    if i != ROOT { FullFrame(parent, req, g, c, parent[i]); }
  }

  /** A new request of group g leaves only g stale. */
  lemma RequestMakesStale(parent: seq<nat>, req: seq<Clamp>, eff: seq<Clamp>, g: nat, c: Clamp)
    requires PreOrder(parent) && |req| == |eff| == |parent| && g < |parent| && AllFull(parent, req, eff)
    ensures StaleOnlyAt(parent, req[g := c], eff, g)
  {
    var e := End(parent, g, g + 1);
    EndFacts(parent, g, g + 1);
    forall j | 0 <= j < g || e <= j < |parent| ensures eff[j] == Full(parent, req[g := c], j) {
      if j < g { BelowIsOutside(parent, g, j); } else { BeyondIsOutside(parent, g, j); }
      FullFrame(parent, req, g, c, j);
    }
    var req' := req[g := c];
    forall j | g < j < e ensures LocalAt(parent, req', eff, j) {
      assert eff[j] == Full(parent, req, j) && eff[parent[j]] == Full(parent, req, parent[j]);
    }
  }

  /** cpu_uclamp_write, either clamp id: store the request and propagate it. */
  method WriteRequest(parent: seq<nat>, req: array<Clamp>, eff: array<Clamp>, g: nat, c: Clamp)
      returns (updated: seq<nat>)
    requires PreOrder(parent) && req.Length == eff.Length == |parent| && g < |parent| && req != eff
    requires AllFull(parent, req[..], eff[..])
    modifies req, eff
    ensures req[..] == old(req[..])[g := c]
    ensures AllFull(parent, req[..], eff[..])
    ensures forall j: nat :: j in updated <==>
              j < |parent| && Full(parent, old(req[..])[g := c], j) != Full(parent, old(req[..]), j)
  {
    RequestMakesStale(parent, req[..], eff[..], g, c);
    req[g] := c;
    assert req[..] == old(req[..])[g := c];
    updated := UpdateEff(parent, req[..], eff, g);
  }

  // ---------------------------------------------------------------- the tree grows

  const SCHED_CAPACITY_SCALE := 1024

  /** init_uclamp: the root group alone, both clamps at their maximum. */
  lemma InitialTree()
    ensures var full := [Clamp(SCHED_CAPACITY_SCALE, SCHED_CAPACITY_SCALE)];
            PreOrder([ROOT]) && AllFull([ROOT], full, full)
  {
  }

  /** Where a group moves when one is inserted at position at. */
  function Shift(i: nat, at: nat): nat {
    if i < at then i else i + 1
  }

  /** A new last child of up comes after all its descendants. */
  function Insert<T>(s: seq<T>, at: nat, x: T): seq<T>
    requires at <= |s|
  {
    s[..at] + [x] + s[at..]
  }

  function WithChild(parent: seq<nat>, up: nat): seq<nat>
    requires up < |parent|
  {
    var at := End(parent, up, up + 1);
    Insert(seq(|parent|, i requires 0 <= i < |parent| => Shift(parent[i], at)), at, up)
  }

  lemma WithChildAt(parent: seq<nat>, up: nat, k: nat)
    requires PreOrder(parent) && up < |parent| && k < |parent|
    ensures var new_, at := WithChild(parent, up), End(parent, up, up + 1);
            && |new_| == |parent| + 1 && up < at < |new_| && new_[at] == up
            && Shift(k, at) < |new_| && Shift(k, at) != at && new_[Shift(k, at)] == Shift(parent[k], at)
  {
  }

  /** Paths move with their groups. */
  lemma {:induction false} ShiftPath(parent: seq<nat>, up: nat, a: nat, k: nat)
    requires PreOrder(parent) && up < |parent| && k < |parent| && OnPath(parent, a, k)
    ensures var at := End(parent, up, up + 1); OnPath(WithChild(parent, up), Shift(a, at), Shift(k, at))
    decreases k
  {
    WithChildAt(parent, up, k);
    hide WithChild;
    if a != k { ShiftPath(parent, up, a, parent[k]); }
  }

  /** Of two groups on one path the lesser is above the other. */
  lemma {:induction false} PathOrder(parent: seq<nat>, a: nat, b: nat, k: nat)
    requires PreOrder(parent) && k < |parent| && a <= b && OnPath(parent, a, k) && OnPath(parent, b, k)
    ensures OnPath(parent, a, b)
    decreases k
  {
    if k != b { PathBelow(parent, b, k); PathOrder(parent, a, b, parent[k]); }
  }

  lemma {:induction false} PathBelow(parent: seq<nat>, a: nat, k: nat)
    requires OnPath(parent, a, k)
    ensures a <= k
    decreases k
  {
    if a != k { PathBelow(parent, a, parent[k]); }
  }

  /** The grown tree is numbered in pre-order again. */
  lemma WithChildPreOrder(parent: seq<nat>, up: nat)
    requires PreOrder(parent) && up < |parent|
    ensures PreOrder(WithChild(parent, up))
  {
    var new_, at := WithChild(parent, up), End(parent, up, up + 1);
    WithChildAt(parent, up, up);
    EndFacts(parent, up, up + 1);
    forall i | 0 < i < |new_| ensures new_[i] < i && (i > 1 ==> OnPath(new_, new_[i], i - 1)) {
      NewPlace(parent, up, i);
    }
  }

  /** Up is above the last group before the new one. */
  lemma LastBefore(parent: seq<nat>, up: nat)
    requires PreOrder(parent) && up < |parent|
    ensures OnPath(parent, up, End(parent, up, up + 1) - 1)
  {
    var at := End(parent, up, up + 1);
    if at - 1 > up { RangeIsSubtree(parent, up, at - 1); }
  }

  /** The group that follows up's descendants hangs off the path to up. */
  lemma NextHangsOff(parent: seq<nat>, up: nat)
    requires PreOrder(parent) && up < |parent| && End(parent, up, up + 1) < |parent|
    ensures var at := End(parent, up, up + 1); at > 1 && parent[at] < |parent| && OnPath(parent, parent[at], up)
  {
    var at := End(parent, up, up + 1);
    EndFacts(parent, up, up + 1);
    LastBefore(parent, up);
    PathOrder(parent, parent[at], up, at - 1);
  }

  lemma PlaceOfNew(parent: seq<nat>, up: nat)
    requires PreOrder(parent) && up < |parent|
    ensures var new_, at := WithChild(parent, up), End(parent, up, up + 1);
            at < |new_| && new_[at] == up < at && OnPath(new_, up, at - 1)
  {
    hide WithChild, PreOrder, OnPath;
    WithChildAt(parent, up, up);
    LastBefore(parent, up);
    ShiftPath(parent, up, up, End(parent, up, up + 1) - 1);
  }

  lemma PlaceAfterNew(parent: seq<nat>, up: nat)
    requires PreOrder(parent) && up < |parent| && End(parent, up, up + 1) < |parent|
    ensures var new_, at := WithChild(parent, up), End(parent, up, up + 1);
            at + 1 < |new_| && new_[at + 1] < at + 1 && OnPath(new_, new_[at + 1], at)
  {
    hide WithChild, PreOrder, OnPath;
    var at := End(parent, up, up + 1);
    WithChildAt(parent, up, at);
    ParentBefore(parent, at);
    NextHangsOff(parent, up);
    ShiftPath(parent, up, parent[at], up);
    NewOnTop(parent, up, parent[at]);
  }

  lemma PlaceOfOld(parent: seq<nat>, up: nat, k: nat)
    requires PreOrder(parent) && up < |parent| && 0 < k < |parent| && k != End(parent, up, up + 1)
    ensures var new_, i := WithChild(parent, up), Shift(k, End(parent, up, up + 1));
            i < |new_| && new_[i] < i && (i > 1 ==> OnPath(new_, new_[i], i - 1))
  {
    hide WithChild, OnPath;
    WithChildAt(parent, up, k);
    if k > 1 { ShiftPath(parent, up, parent[k], k - 1); }
    hide PreOrder;
  }

  lemma NewPlace(parent: seq<nat>, up: nat, i: nat)
    requires PreOrder(parent) && up < |parent| && 0 < i <= |parent|
    ensures var new_ := WithChild(parent, up);
            |new_| == |parent| + 1 && new_[i] < i && (i > 1 ==> OnPath(new_, new_[i], i - 1))
  {
    hide WithChild, PreOrder, OnPath;
    var at := End(parent, up, up + 1);
    WithChildAt(parent, up, up);
    if i == at {
      PlaceOfNew(parent, up);
    } else if i == at + 1 {
      PlaceAfterNew(parent, up);
    } else {
      PlaceOfOld(parent, up, if i < at then i else i - 1);
    }
  }

  /** What is above up is above its new child. */
  lemma NewOnTop(parent: seq<nat>, up: nat, a: nat)
    requires PreOrder(parent) && up < |parent|
    requires var at := End(parent, up, up + 1); OnPath(WithChild(parent, up), Shift(a, at), Shift(up, at))
    ensures var at := End(parent, up, up + 1); OnPath(WithChild(parent, up), Shift(a, at), at)
  {
    WithChildAt(parent, up, up);
  }

  /** Effective clamps move with their groups. */
  lemma {:induction false} FullShift(parent: seq<nat>, req: seq<Clamp>, up: nat, c: Clamp, k: nat)
    requires PreOrder(parent) && |req| == |parent| && up < |parent| && k < |parent|
    ensures var at, new_ := End(parent, up, up + 1), WithChild(parent, up);
            && PreOrder(new_) && |new_| == |parent| + 1 && Shift(k, at) < |new_|
            && Full(new_, Insert(req, at, c), Shift(k, at)) == Full(parent, req, k)
  {
    WithChildPreOrder(parent, up);
    WithChildAt(parent, up, k);
    hide WithChild, PreOrder;
    var at := End(parent, up, up + 1);
    assert Insert(req, at, c)[Shift(k, at)] == req[k];
    if k != ROOT { ParentBefore(parent, k); FullShift(parent, req, up, c, parent[k]); }
  }

  lemma ParentBefore(parent: seq<nat>, k: nat)
    requires PreOrder(parent) && 0 < k < |parent|
    ensures parent[k] < k
  {
  }

  /**
   alloc_uclamp_sched_group: a new group asks for nothing and starts with its parent's
   effective clamps; only the new group can be wrong, whatever it starts with.
   */
  lemma NewGroupIsStale(parent: seq<nat>, req: seq<Clamp>, eff: seq<Clamp>, up: nat, r: Clamp, e: Clamp)
    requires PreOrder(parent) && |req| == |eff| == |parent| && up < |parent| && AllFull(parent, req, eff)
    ensures var at, new_ := End(parent, up, up + 1), WithChild(parent, up);
            && PreOrder(new_) && |new_| == |parent| + 1 && at < |new_|
            && StaleOnlyAt(new_, Insert(req, at, r), Insert(eff, at, e), at)
  {
    hide WithChild, Full, PreOrder, Insert, AllFull;
    var at, new_ := End(parent, up, up + 1), WithChild(parent, up);
    WithChildPreOrder(parent, up);
    WithChildAt(parent, up, up);
    NewIsLeaf(parent, up);
    InsertAt(req, at, r, at);
    InsertAt(eff, at, e, at);
    forall j | 0 <= j < |new_| && j != at ensures Insert(eff, at, e)[j] == Full(new_, Insert(req, at, r), j) {
      var k := if j < at then j else j - 1;
      FullShift(parent, req, up, r, k);
      InsertAt(eff, at, e, j);
      AllFullAt(parent, req, eff, k);
    }
  }

  lemma AllFullAt(parent: seq<nat>, req: seq<Clamp>, eff: seq<Clamp>, k: nat)
    requires PreOrder(parent) && |req| == |eff| == |parent| && k < |parent| && AllFull(parent, req, eff)
    ensures eff[k] == Full(parent, req, k)
  {
  }

  /** The new group has no descendants. */
  lemma NewIsLeaf(parent: seq<nat>, up: nat)
    requires PreOrder(parent) && up < |parent|
    ensures var at, new_ := End(parent, up, up + 1), WithChild(parent, up);
            at < |new_| && End(new_, at, at + 1) == at + 1
  {
    var at := End(parent, up, up + 1);
    WithChildAt(parent, up, up);
    EndFacts(parent, up, up + 1);
    if at < |parent| { WithChildAt(parent, up, at); }
    hide WithChild, PreOrder;
  }

  lemma InsertAt<T>(s: seq<T>, at: nat, x: T, j: nat)
    requires at <= |s| && j <= |s|
    ensures |Insert(s, at, x)| == |s| + 1
    ensures Insert(s, at, x)[j] == if j < at then s[j] else if j == at then x else s[j - 1]
  {
  }

  /** cpu_cgroup_css_online: the new group's clamps are brought in line with its parent's. */
  method AddGroup(parent: seq<nat>, req: array<Clamp>, eff: array<Clamp>, up: nat)
    returns (parent': seq<nat>, req': array<Clamp>, eff': array<Clamp>, group: nat)
    requires PreOrder(parent) && req.Length == eff.Length == |parent| && up < |parent|
    requires AllFull(parent, req[..], eff[..])
    ensures fresh(req') && fresh(eff') && req' != eff'
    ensures group == End(parent, up, up + 1) && parent' == WithChild(parent, up)
    ensures PreOrder(parent') && req'.Length == eff'.Length == |parent'|
    ensures req'[..] == Insert(req[..], group, Clamp(0, SCHED_CAPACITY_SCALE))
    ensures AllFull(parent', req'[..], eff'[..])
  {
    group := End(parent, up, up + 1);
    parent' := WithChild(parent, up);
    var rs := Insert(req[..], group, Clamp(0, SCHED_CAPACITY_SCALE));
    var es := Insert(eff[..], group, eff[up]);
    NewGroupIsStale(parent, req[..], eff[..], up, Clamp(0, SCHED_CAPACITY_SCALE), eff[up]);
    hide PreOrder, StaleOnlyAt, AllFull, WithChild, Insert;
    InsertAt(req[..], group, Clamp(0, SCHED_CAPACITY_SCALE), 0);
    InsertAt(eff[..], group, eff[up], 0);
    req' := new Clamp[|rs|](i requires 0 <= i < |rs| => rs[i]);
    eff' := new Clamp[|es|](i requires 0 <= i < |es| => es[i]);
    assert req'[..] == rs && eff'[..] == es;
    var updated := UpdateEff(parent', rs, eff', group);
  }
}
