/**
 walk_tg_tree_from (kernel/sched/core.c): a depth-first walk of a task-group tree without a
 stack, following parent pointers and sibling links with goto.

 A pointer to a group is the path of child positions leading to it from the root group:
 its parent is the path without its last position, and the root has no parent.
 */
module TgWalk {

  datatype Tree = Tree(children: seq<Tree>)

  type Path = seq<nat>

  /** A visitor gets a group and the caller's data, and returns the new data and a result. */
  type Visitor<!D> = (Path, D) -> (D, int)

  predicate Exists(t: Tree, p: Path) {
    p == [] || (p[0] < |t.children| && Exists(t.children[p[0]], p[1..]))
  }

  /** The subtree a path leads to. */
  function At(t: Tree, p: Path): Tree
    requires Exists(t, p)
  {
    if p == [] then t else At(t.children[p[0]], p[1..])
  }

  // ---------------------------------------------------------------- the recursive walk

  /** What the walk computes, by recursion: down, the children in order, up; the first nonzero result ends it. */
  function Walk<D>(p: Path, t: Tree, down: Visitor<D>, up: Visitor<D>, d: D): (D, int)
    decreases t, 1
  {
    var (d1, r1) := down(p, d);
    if r1 != 0 then (d1, r1)
    else
      var (d2, r2) := WalkChildren(p, t, 0, down, up, d1);
      if r2 != 0 then (d2, r2) else up(p, d2)
  }

  function WalkChildren<D>(p: Path, t: Tree, k: nat, down: Visitor<D>, up: Visitor<D>, d: D): (D, int)
    requires k <= |t.children|
    decreases t, 0, |t.children| - k
  {
    if k == |t.children| then (d, 0)
    else
      var (d1, r1) := Walk(p + [k], t.children[k], down, up, d);
      if r1 != 0 then (d1, r1) else WalkChildren(p, t, k + 1, down, up, d1)
  }

  // ---------------------------------------------------------------- the visits of a full walk

  datatype Visit = Down(at: Path) | Up(at: Path)

  function Visits(p: Path, t: Tree): seq<Visit>
    decreases t, 1
  {
    [Down(p)] + ChildVisits(p, t, 0) + [Up(p)]
  }

  function ChildVisits(p: Path, t: Tree, k: nat): seq<Visit>
    requires k <= |t.children|
    decreases t, 0, |t.children| - k
  {
    if k == |t.children| then [] else Visits(p + [k], t.children[k]) + ChildVisits(p, t, k + 1)
  }

  /** Make the visits in order up to the first nonzero result. */
  function Perform<D>(vs: seq<Visit>, down: Visitor<D>, up: Visitor<D>, d: D): (D, int) {
    if vs == [] then (d, 0)
    else
      var (d1, r1) := match vs[0] case Down(p) => down(p, d) case Up(p) => up(p, d);
      if r1 != 0 then (d1, r1) else Perform(vs[1..], down, up, d1)
  }

  lemma {:induction false} PerformConcat<D>(a: seq<Visit>, b: seq<Visit>, down: Visitor<D>, up: Visitor<D>, d: D)
    ensures var (d1, r1) := Perform(a, down, up, d);
            Perform(a + b, down, up, d) == if r1 != 0 then (d1, r1) else Perform(b, down, up, d1)
  {
    if a == [] {
      assert a + b == b;
    } else {
      var (d1, r1) := match a[0] case Down(p) => down(p, d) case Up(p) => up(p, d);
      PerformConcat(a[1..], b, down, up, d1);
      assert (a + b)[1..] == a[1..] + b;
    }
  }

  /** The recursive walk makes the visits of Visits in order, stopping at the first nonzero result. */
  lemma {:induction false} WalkPerformsVisits<D>(p: Path, t: Tree, down: Visitor<D>, up: Visitor<D>, d: D)
    ensures Walk(p, t, down, up, d) == Perform(Visits(p, t), down, up, d)
    decreases t, 1
  {
    var (d1, r1) := down(p, d);
    assert Visits(p, t)[1..] == ChildVisits(p, t, 0) + [Up(p)];
    WalkChildrenPerforms(p, t, 0, down, up, d1);
    PerformConcat(ChildVisits(p, t, 0), [Up(p)], down, up, d1);
    var (d2, r2) := WalkChildren(p, t, 0, down, up, d1);
    assert Perform([Up(p)], down, up, d2) == up(p, d2);
  }

  lemma {:induction false} WalkChildrenPerforms<D>(p: Path, t: Tree, k: nat, down: Visitor<D>, up: Visitor<D>, d: D)
    requires k <= |t.children|
    ensures WalkChildren(p, t, k, down, up, d) == Perform(ChildVisits(p, t, k), down, up, d)
    decreases t, 0, |t.children| - k
  {
    if k < |t.children| {
      WalkPerformsVisits(p + [k], t.children[k], down, up, d);
      PerformConcat(Visits(p + [k], t.children[k]), ChildVisits(p, t, k + 1), down, up, d);
      var (d1, r1) := Walk(p + [k], t.children[k], down, up, d);
      WalkChildrenPerforms(p, t, k + 1, down, up, d1);
    }
  }

  // ---------------------------------------------------------------- pre-order and post-order

  function PreOrder(p: Path, t: Tree): seq<Path>
    decreases t, 1
  {
    [p] + PreOrderChildren(p, t, 0)
  }

  function PreOrderChildren(p: Path, t: Tree, k: nat): seq<Path>
    requires k <= |t.children|
    decreases t, 0, |t.children| - k
  {
    if k == |t.children| then [] else PreOrder(p + [k], t.children[k]) + PreOrderChildren(p, t, k + 1)
  }

  function PostOrder(p: Path, t: Tree): seq<Path>
    decreases t, 1
  {
    PostOrderChildren(p, t, 0) + [p]
  }

  function PostOrderChildren(p: Path, t: Tree, k: nat): seq<Path>
    requires k <= |t.children|
    decreases t, 0, |t.children| - k
  {
    if k == |t.children| then [] else PostOrder(p + [k], t.children[k]) + PostOrderChildren(p, t, k + 1)
  }

  function Downs(vs: seq<Visit>): seq<Path> {
    if vs == [] then [] else (if vs[0].Down? then [vs[0].at] else []) + Downs(vs[1..])
  }

  function Ups(vs: seq<Visit>): seq<Path> {
    if vs == [] then [] else (if vs[0].Up? then [vs[0].at] else []) + Ups(vs[1..])
  }

  lemma {:induction false} SplitVisits(a: seq<Visit>, b: seq<Visit>)
    ensures Downs(a + b) == Downs(a) + Downs(b) && Ups(a + b) == Ups(a) + Ups(b)
  {
    if a == [] {
      assert a + b == b;
    } else {
      var v, r := a[0], a[1..];
      assert (a + b)[0] == v && (a + b)[1..] == r + b;
      SplitVisits(r, b);
      var ds, us: seq<Path> := if v.Down? then [v.at] else [], if v.Up? then [v.at] else [];
      calc {
        Downs(a + b);
        ds + Downs(r + b);
        ds + (Downs(r) + Downs(b));
        (ds + Downs(r)) + Downs(b);
        Downs(a) + Downs(b);
      }
      calc {
        Ups(a + b);
        us + Ups(r + b);
        us + (Ups(r) + Ups(b));
        (us + Ups(r)) + Ups(b);
        Ups(a) + Ups(b);
      }
    }
  }

  /** A full walk goes down in pre-order and up in post-order. */
  lemma {:induction false} VisitOrder(p: Path, t: Tree)
    ensures Downs(Visits(p, t)) == PreOrder(p, t) && Ups(Visits(p, t)) == PostOrder(p, t)
    decreases t, 1
  {
    ChildVisitOrder(p, t, 0);
    SplitVisits([Down(p)], ChildVisits(p, t, 0));
    SplitVisits([Down(p)] + ChildVisits(p, t, 0), [Up(p)]);
    assert Downs([Up(p)]) == [] && Ups([Down(p)]) == [];
  }

  lemma {:induction false} ChildVisitOrder(p: Path, t: Tree, k: nat)
    requires k <= |t.children|
    ensures Downs(ChildVisits(p, t, k)) == PreOrderChildren(p, t, k)
    ensures Ups(ChildVisits(p, t, k)) == PostOrderChildren(p, t, k)
    decreases t, 0, |t.children| - k
  {
    if k < |t.children| {
      VisitOrder(p + [k], t.children[k]);
      ChildVisitOrder(p, t, k + 1);
      SplitVisits(Visits(p + [k], t.children[k]), ChildVisits(p, t, k + 1));
    }
  }

  // ---------------------------------------------------------------- every group once

  /** q lies below p, through a child numbered k or more, in the tree t standing at p. */
  predicate Below(p: Path, t: Tree, k: nat, q: Path) {
    |q| > |p| && q[..|p|] == p && q[|p|] >= k && Exists(t, q[|p|..])
  }

  /** Both orders list every group of the tree exactly once. */
  lemma {:induction false} EachGroupOnce(p: Path, t: Tree, q: Path)
    ensures multiset(PreOrder(p, t))[q] == multiset(PostOrder(p, t))[q] == if Within(p, t, q) then 1 else 0
    decreases t, 1
  {
    EachBelowOnce(p, t, 0, q);
    var a, b := PreOrderChildren(p, t, 0), PostOrderChildren(p, t, 0);
    assert multiset([p] + a)[q] == multiset([p])[q] + multiset(a)[q];
    assert multiset(b + [p])[q] == multiset(b)[q] + multiset([p])[q];
    assert |q| == |p| && q[..|p|] == p ==> q == p;
    assert q == p ==> q[|p|..] == [];
  }

  lemma PathThrough(p: Path, k: nat, q: Path)
    requires |q| > |p|
    ensures q[..|p| + 1] == p + [k] <==> q[..|p|] == p && q[|p|] == k
    ensures q[|p|..][1..] == q[|p| + 1..]
  {
    assert q[..|p| + 1] == q[..|p|] + [q[|p|]];
    assert (p + [k])[..|p|] == p && q[..|p| + 1][..|p|] == q[..|p|];
  }

  /** q is the group at p or one below it. */
  predicate Within(p: Path, t: Tree, q: Path) {
    |q| >= |p| && q[..|p|] == p && Exists(t, q[|p|..])
  }

  /** The groups below p from the k-th child on: that child's and the later ones'. */
  lemma BelowTurn(p: Path, t: Tree, k: nat, q: Path)
    requires k < |t.children|
    ensures Below(p, t, k, q) <==> Within(p + [k], t.children[k], q) || Below(p, t, k + 1, q)
    ensures !(Within(p + [k], t.children[k], q) && Below(p, t, k + 1, q))
  {
    if |q| > |p| { PathThrough(p, k, q); }
  }

  lemma CountTurn(p: Path, t: Tree, k: nat, q: Path)
    requires k < |t.children|
    ensures multiset(PreOrderChildren(p, t, k))[q] ==
            multiset(PreOrder(p + [k], t.children[k]))[q] + multiset(PreOrderChildren(p, t, k + 1))[q]
    ensures multiset(PostOrderChildren(p, t, k))[q] ==
            multiset(PostOrder(p + [k], t.children[k]))[q] + multiset(PostOrderChildren(p, t, k + 1))[q]
  {
  }

  lemma {:induction false} EachBelowOnce(p: Path, t: Tree, k: nat, q: Path)
    requires k <= |t.children|
    ensures multiset(PreOrderChildren(p, t, k))[q] == multiset(PostOrderChildren(p, t, k))[q]
            == if Below(p, t, k, q) then 1 else 0
    decreases t, 0, |t.children| - k
  {
    if k < |t.children| {
      hide PreOrderChildren, PostOrderChildren, PreOrder, PostOrder, Below, Within;
      EachGroupOnce(p + [k], t.children[k], q);
      EachBelowOnce(p, t, k + 1, q);
      BelowTurn(p, t, k, q);
      CountTurn(p, t, k, q);
    }
  }

  // ---------------------------------------------------------------- the walk without a stack

  /** The visits still to be made from the k-th child of the group at q on. */
  function Rest(p: Path, t: Tree, q: Path, k: nat): seq<Visit>
    requires Exists(t, q) && k <= |At(t, q).children|
    decreases |q|
  {
    if q == [] then ChildVisits(p, t, k) + [Up(p)]
    else Rest(p + [q[0]], t.children[q[0]], q[1..], k) + ChildVisits(p, t, q[0] + 1) + [Up(p)]
  }

  lemma {:induction false} ChildExists(t: Tree, q: Path, k: nat)
    requires Exists(t, q)
    ensures Exists(t, q + [k]) <==> k < |At(t, q).children|
    ensures Exists(t, q + [k]) ==> At(t, q + [k]) == At(t, q).children[k]
  {
    if q != [] {
      ChildExists(t.children[q[0]], q[1..], k);
      assert (q + [k])[1..] == q[1..] + [k];
    } else {
      assert (q + [k])[1..] == [];
    }
  }

  /** A path inside a subtree, seen from the whole tree. */
  lemma {:induction false} AtSubtree(t: Tree, p: Path, q: Path)
    requires Exists(t, p) && Exists(At(t, p), q)
    ensures Exists(t, p + q) && At(t, p + q) == At(At(t, p), q)
    decreases |p|
  {
    if p == [] {
      assert p + q == q;
    } else {
      AtSubtree(t.children[p[0]], p[1..], q);
      assert (p + q)[1..] == p[1..] + q;
    }
  }

  lemma {:induction false} ParentExists(t: Tree, q: Path)
    requires Exists(t, q) && q != []
    ensures Exists(t, q[..|q| - 1]) && q[|q| - 1] < |At(t, q[..|q| - 1]).children|
  {
    if |q| > 1 {
      ParentExists(t.children[q[0]], q[1..]);
      assert q[1..][..|q| - 2] == q[..|q| - 1][1..];
    }
  }

  /** Going down to the k-th child. */
  lemma {:induction false} RestDown(p: Path, t: Tree, q: Path, k: nat)
    requires Exists(t, q) && k < |At(t, q).children|
    ensures Exists(t, q + [k]) && Rest(p, t, q, k) == [Down(p + q + [k])] + Rest(p, t, q + [k], 0)
    decreases |q|
  {
    ChildExists(t, q, k);
    var q' := q + [k];
    if q == [] {
      var c, more := t.children[k], ChildVisits(p, t, k + 1);
      assert q'[1..] == [] && q'[0] == k && p + q == p;
      assert Rest(p + [k], c, [], 0) == ChildVisits(p + [k], c, 0) + [Up(p + [k])];
      calc {
        Rest(p, t, q, k);
        Visits(p + [k], c) + more + [Up(p)];
        [Down(p + [k])] + Rest(p + [k], c, [], 0) + more + [Up(p)];
        [Down(p + [k])] + Rest(p, t, q', 0);
      }
    } else {
      var p1, c, tail := p + [q[0]], t.children[q[0]], q[1..];
      var more := ChildVisits(p, t, q[0] + 1) + [Up(p)];
      RestDown(p1, c, tail, k);
      assert q'[1..] == tail + [k] && q'[0] == q[0] && p1 + tail == p + q;
      calc {
        Rest(p, t, q, k);
        Rest(p1, c, tail, k) + more;
        [Down(p + q + [k])] + (Rest(p1, c, tail + [k], 0) + more);
        [Down(p + q + [k])] + Rest(p, t, q', 0);
      }
    }
  }

  /** Coming up from a group whose children are done. */
  lemma {:induction false} RestUp(p: Path, t: Tree, q: Path)
    requires Exists(t, q) && q != []
    ensures var up := q[..|q| - 1];
            && Exists(t, up) && q[|q| - 1] < |At(t, up).children|
            && Rest(p, t, q, |At(t, q).children|) == [Up(p + q)] + Rest(p, t, up, q[|q| - 1] + 1)
    decreases |q|
  {
    ParentExists(t, q);
    var p1, c, tail, more := p + [q[0]], t.children[q[0]], q[1..], ChildVisits(p, t, q[0] + 1) + [Up(p)];
    var up, n := q[..|q| - 1], |At(t, q).children|;
    assert p1 + tail == p + q;
    if |q| == 1 {
      assert tail == [] && up == [];
      assert At(t, q) == At(c, tail) == c;
      assert Rest(p1, c, tail, n) == [Up(p1)];
      assert p1 == p + q && more == Rest(p, t, up, q[0] + 1);
      assert Rest(p, t, q, n) == Rest(p1, c, tail, n) + more;
    } else {
      RestUp(p1, c, tail);
      assert tail[..|q| - 2] == up[1..] && up[0] == q[0];
      calc {
        Rest(p, t, q, n);
        Rest(p1, c, tail, n) + more;
        [Up(p + q)] + (Rest(p1, c, up[1..], q[|q| - 1] + 1) + more);
        [Up(p + q)] + Rest(p, t, up, q[|q| - 1] + 1);
      }
    }
  }

  /** Where the walk is: about to call down on a group, or back in a group after its child. */
  datatype Stage = GoingDown | BackFrom(child: Path)

  /** The visits still to be made, when the walk stands at the group q of the tree t at p. */
  ghost predicate Remaining(p: Path, t: Tree, q: Path, parent: Path, stage: Stage, rest: seq<Visit>) {
    && Exists(t, q) && parent == p + q
    && match stage
       case GoingDown => rest == [Down(parent)] + Rest(p, t, q, 0)
       case BackFrom(c) => (
         && |c| == |parent| + 1 && c[|parent|] < |At(t, q).children|
         && rest == Rest(p, t, q, c[|parent|] + 1))
  }

  /**
   walk_tg_tree_from: started at any group of the tree, it ends, and does what the recursive
   walk of the subtree does.
   */
  method WalkTgTreeFrom<D>(root: Tree, from: Path, down: Visitor<D>, up: Visitor<D>, data: D) returns (ret: int, d: D)
    requires Exists(root, from)
    ensures (d, ret) == Walk(from, At(root, from), down, up, data)
  {
    hide Walk, Rest, Visits, Exists, At;
    ghost var t := At(root, from);
    ghost var q: Path, rest := StartWalk(from, t, down, up, data);
    var parent := from;
    var stage := GoingDown;
    d, ret := data, 0;
    while true
      invariant Remaining(from, t, q, parent, stage, rest)
      invariant Perform(rest, down, up, d) == Walk(from, t, down, up, data)
      decreases |rest|, (if stage.BackFrom? then 1 else 0)
    {
      AtSubtree(root, from, q);
      var k: nat;
      match stage {
        case GoingDown =>
          d, ret := Call(down, parent, d);
          if ret != 0 {
            return;
          }
          rest := rest[1..];
          k := 0;
        case BackFrom(child) =>
          k := child[|parent|] + 1;
      }
      assert rest == Rest(from, t, q, k);
      if k < |At(root, parent).children| {
        RestDown(from, t, q, k);
        assert parent + [k] == from + (q + [k]);
        parent, q, stage := parent + [k], q + [k], GoingDown;
        continue;
      }
      UpNext(from, t, q, down, up, d);
      d, ret := Call(up, parent, d);
      if ret != 0 || parent == from {
        return;
      }
      rest := rest[1..];
      var child := parent;
      assert parent[..|parent| - 1] == from + q[..|q| - 1];
      parent, q := parent[..|parent| - 1], q[..|q| - 1];
      stage := BackFrom(child);
    }
  }

  method Call<D>(f: Visitor<D>, p: Path, d: D) returns (d': D, ret: int)
    ensures (d', ret) == f(p, d)
  {
    var r := f(p, d);
    d', ret := r.0, r.1;
  }

  lemma StartWalk<D>(p: Path, t: Tree, down: Visitor<D>, up: Visitor<D>, d: D) returns (q: Path, rest: seq<Visit>)
    ensures q == [] && Remaining(p, t, q, p, GoingDown, rest)
    ensures Perform(rest, down, up, d) == Walk(p, t, down, up, d)
  {
    WalkPerformsVisits(p, t, down, up, d);
    q, rest := [], Visits(p, t);
    assert p + q == p;
  }

  /** The next visit once the children of the group at q are done. */
  lemma UpNext<D>(p: Path, t: Tree, q: Path, down: Visitor<D>, up: Visitor<D>, d: D)
    requires Exists(t, q)
    ensures var rest := Rest(p, t, q, |At(t, q).children|);
            && rest != [] && rest[0] == Up(p + q)
            && (q == [] ==> rest == [Up(p)] && Perform(rest, down, up, d) == up(p, d))
            && (q != [] ==> Exists(t, q[..|q| - 1]) && q[|q| - 1] < |At(t, q[..|q| - 1]).children| &&
                            rest[1..] == Rest(p, t, q[..|q| - 1], q[|q| - 1] + 1))
  {
    if q == [] {
      assert p + q == p;
    } else {
      RestUp(p, t, q);
    }
  }
}
