/**
 walk_process_tree (kernel/fork.c): visit the descendants of a process without a stack.
 A process has threads, each thread has its own list of child processes, and the visitor's
 answer decides: positive, go on with the child's own children; zero, skip them; negative,
 stop the whole walk.

 A pointer to a process is the path leading to it from the top process, one step per
 generation: which thread of the parent, and which child of that thread.
 */
module ProcessWalk {

  datatype Process = Process(threads: seq<Thread>)
  datatype Thread = Thread(children: seq<Process>)

  datatype Link = Link(thread: nat, child: nat)

  type Path = seq<Link>

  type Visitor<!D> = (Path, D) -> (D, int)

  predicate HasChild(t: Process, l: Link) {
    l.thread < |t.threads| && l.child < |t.threads[l.thread].children|
  }

  function Child(t: Process, l: Link): Process
    requires HasChild(t, l)
  {
    t.threads[l.thread].children[l.child]
  }

  predicate Exists(t: Process, q: Path) {
    q == [] || (HasChild(t, q[0]) && Exists(Child(t, q[0]), q[1..]))
  }

  function At(t: Process, q: Path): Process
    requires Exists(t, q)
  {
    if q == [] then t else At(Child(t, q[0]), q[1..])
  }

  /** (i, j) is a place in the double loop over threads and their children. */
  predicate Place(t: Process, i: nat, j: nat) {
    if i < |t.threads| then j <= |t.threads[i].children| else i == |t.threads| && j == 0
  }

  // ---------------------------------------------------------------- the recursive walk

  /** The walk from place (i, j) of the process at p: the new data, and whether it was stopped. */
  function Walk<D>(p: Path, t: Process, i: nat, j: nat, v: Visitor<D>, d: D): (D, bool)
    requires Place(t, i, j)
    decreases t, |t.threads| - i, if i < |t.threads| then |t.threads[i].children| - j else 0
  {
    if i == |t.threads| then (d, false)
    else if j == |t.threads[i].children| then Walk(p, t, i + 1, 0, v, d)
    else
      var c := p + [Link(i, j)];
      var (d1, r) := v(c, d);
      if r < 0 then (d1, true)
      else if r == 0 then Walk(p, t, i, j + 1, v, d1)
      else
        var (d2, stop) := Walk(c, t.threads[i].children[j], 0, 0, v, d1);
        if stop then (d2, true) else Walk(p, t, i, j + 1, v, d2)
  }

  // ---------------------------------------------------------------- which processes, in which order

  /** Pre-order: ancestors first, then by thread, then by child. */
  predicate Before(a: Path, b: Path) {
    if b == [] then false
    else if a == [] then true
    else
      || a[0].thread < b[0].thread
      || (a[0].thread == b[0].thread && a[0].child < b[0].child)
      || (a[0] == b[0] && Before(a[1..], b[1..]))
  }

  /** Every process strictly between the top and q got a positive answer. */
  predicate Reached(p: Path, q: Path, res: Path -> int) {
    forall n | 0 < n < |q| :: res(p + q[..n]) > 0
  }

  /** The descendants an unstopped walk visits, for answers that depend on the process alone. */
  function Order(p: Path, t: Process, i: nat, j: nat, res: Path -> int): seq<Path>
    requires Place(t, i, j)
    decreases t, |t.threads| - i, if i < |t.threads| then |t.threads[i].children| - j else 0
  {
    if i == |t.threads| then []
    else if j == |t.threads[i].children| then Order(p, t, i + 1, 0, res)
    else
      var c := p + [Link(i, j)];
      [c] + (if res(c) > 0 then Order(c, t.threads[i].children[j], 0, 0, res) else []) + Order(p, t, i, j + 1, res)
  }

  function UpToNegative<T>(s: seq<T>, res: T -> int): seq<T> {
    if s == [] then [] else [s[0]] + (if res(s[0]) < 0 then [] else UpToNegative(s[1..], res))
  }

  predicate AnyNegative<T>(s: seq<T>, res: T -> int) {
    s != [] && (res(s[0]) < 0 || AnyNegative(s[1..], res))
  }

  /** Note every call, and answer by res. */
  function Logger(res: Path -> int): Visitor<seq<Path>> {
    (c: Path, log: seq<Path>) => (log + [c], res(c))
  }

  lemma {:induction false} AnyNegativeConcat<T>(a: seq<T>, b: seq<T>, res: T -> int)
    ensures AnyNegative(a + b, res) <==> AnyNegative(a, res) || AnyNegative(b, res)
  {
    if a == [] {
      assert a + b == b;
    } else {
      AnyNegativeConcat(a[1..], b, res);
      assert (a + b)[0] == a[0] && (a + b)[1..] == a[1..] + b;
    }
  }

  lemma UpToNegativeCons<T>(h: T, c: seq<T>, res: T -> int)
    ensures UpToNegative([h] + c, res) == [h] + if res(h) < 0 then [] else UpToNegative(c, res)
    ensures AnyNegative([h] + c, res) <==> res(h) < 0 || AnyNegative(c, res)
  {
    assert ([h] + c)[1..] == c;
  }

  lemma {:induction false} UpToNegativeConcat<T>(a: seq<T>, b: seq<T>, res: T -> int)
    ensures AnyNegative(a, res) ==> UpToNegative(a + b, res) == UpToNegative(a, res)
    ensures !AnyNegative(a, res) ==> UpToNegative(a + b, res) == UpToNegative(a, res) + UpToNegative(b, res)
  {
    hide UpToNegative, AnyNegative;
    if a == [] {
      assert a + b == b;
      NothingNegative(a, res);
    } else {
      var h, c := a[0], a[1..];
      UpToNegativeConcat(c, b, res);
      UpToNegativeCons(h, c, res);
      UpToNegativeCons(h, c + b, res);
      assert [h] + c == a && [h] + (c + b) == a + b;
    }
  }

  lemma NothingNegative<T>(s: seq<T>, res: T -> int)
    requires s == []
    ensures UpToNegative(s, res) == [] && !AnyNegative(s, res)
  {
  }

  /** The walk makes exactly the calls of Order up to the first negative answer, and that answer stops it. */
  lemma {:induction false} CallsMade(p: Path, t: Process, i: nat, j: nat, res: Path -> int, log: seq<Path>)
    requires Place(t, i, j)
    ensures var o := Order(p, t, i, j, res);
            Walk(p, t, i, j, Logger(res), log) == (log + UpToNegative(o, res), AnyNegative(o, res))
    decreases t, |t.threads| - i, (if i < |t.threads| then |t.threads[i].children| - j else 0), 1
  {
    if i == |t.threads| {
      assert log + [] == log;
    } else {
      if j == |t.threads[i].children| {
        CallsMade(p, t, i + 1, 0, res, log);
      } else {
        CallsMadeChild(p, t, i, j, res, log);
      }
    }
  }

  lemma ParentThenRest<T>(c: T, inner: seq<T>, more: seq<T>, res: T -> int)
    ensures var o := [c] + inner + more;
            && AnyNegative(o, res) == (res(c) < 0 || AnyNegative(inner, res) || AnyNegative(more, res))
            && UpToNegative(o, res) ==
               (if res(c) < 0 then [c]
                else if AnyNegative(inner, res) then [c] + UpToNegative(inner, res)
                else [c] + UpToNegative(inner, res) + UpToNegative(more, res))
  {
    hide UpToNegative, AnyNegative;
    assert [c] + inner + more == [c] + (inner + more);
    UpToNegativeCons(c, inner + more, res);
    UpToNegativeConcat(inner, more, res);
    AnyNegativeConcat(inner, more, res);
  }

  lemma {:induction false} CallsMadeChild(p: Path, t: Process, i: nat, j: nat, res: Path -> int, log: seq<Path>)
    requires Place(t, i, j) && i < |t.threads| && j < |t.threads[i].children|
    ensures var o := Order(p, t, i, j, res);
            Walk(p, t, i, j, Logger(res), log) == (log + UpToNegative(o, res), AnyNegative(o, res))
    decreases t, |t.threads| - i, |t.threads[i].children| - j, 0
  {
    hide UpToNegative, AnyNegative, Order, Walk, Logger;
    var c := p + [Link(i, j)];
    var l, child := log + [c], t.threads[i].children[j];
    var inner := if res(c) > 0 then Order(c, child, 0, 0, res) else [];
    var more := Order(p, t, i, j + 1, res);
    OrderTurn(p, t, i, j, res);
    WalkTurn(p, t, i, j, res, log);
    ParentThenRest(c, inner, more, res);
    var u1, u2 := UpToNegative(inner, res), UpToNegative(more, res);
    CallsMade(p, t, i, j + 1, res, l + u1);
    assert l + u1 == log + ([c] + u1) && l + u1 + u2 == log + ([c] + u1 + u2);
    if res(c) > 0 {
      CallsMade(c, child, 0, 0, res, l);
    } else {
      NothingNegative(inner, res);
      assert l + u1 == l;
    }
  }

  lemma OrderTurn(p: Path, t: Process, i: nat, j: nat, res: Path -> int)
    requires Place(t, i, j) && i < |t.threads| && j < |t.threads[i].children|
    ensures var c := p + [Link(i, j)];
            var inner := if res(c) > 0 then Order(c, t.threads[i].children[j], 0, 0, res) else [];
            Order(p, t, i, j, res) == [c] + inner + Order(p, t, i, j + 1, res)
  {
  }

  lemma WalkTurn(p: Path, t: Process, i: nat, j: nat, res: Path -> int, log: seq<Path>)
    requires Place(t, i, j) && i < |t.threads| && j < |t.threads[i].children|
    ensures var c, v := p + [Link(i, j)], Logger(res);
            var w := if res(c) > 0 then Walk(c, t.threads[i].children[j], 0, 0, v, log + [c])
                else (log + [c], res(c) < 0);
            Walk(p, t, i, j, v, log) == if w.1 then (w.0, true) else Walk(p, t, i, j + 1, v, w.0)
  {
  }

  // ---------------------------------------------------------------- Order is pre-order

  /** q is a descendant at place (i, j) or later. */
  predicate From(t: Process, i: nat, j: nat, q: Path) {
    q != [] && Exists(t, q) && (q[0].thread > i || (q[0].thread == i && q[0].child >= j))
  }

  /** Order lists every descendant that is reached, and nothing else. */
  lemma {:induction false} OrderContents(p: Path, t: Process, i: nat, j: nat, res: Path -> int, x: Path)
    requires Place(t, i, j)
    ensures x in Order(p, t, i, j, res) <==>
            |x| > |p| && x[..|p|] == p && From(t, i, j, x[|p|..]) && Reached(p, x[|p|..], res)
    decreases t, |t.threads| - i, if i < |t.threads| then |t.threads[i].children| - j else 0
  {
    hide Order, Reached, From;
    if i == |t.threads| {
      NoPlaceLeft(p, t, i, j, res);
      if |x| > |p| { NothingFrom(t, i, j, x[|p|..]); }
    } else if j == |t.threads[i].children| {
      NoPlaceLeft(p, t, i, j, res);
      if |x| > |p| { NothingFrom(t, i, j, x[|p|..]); }
      OrderContents(p, t, i + 1, 0, res, x);
    } else {
      var c, child := p + [Link(i, j)], t.threads[i].children[j];
      OrderTurn(p, t, i, j, res);
      OrderContents(p, t, i, j + 1, res, x);
      if res(c) > 0 { OrderContents(c, child, 0, 0, res, x); }
      if |x| > |p| && x[..|p|] == p && x[|p|] == Link(i, j) {
        AtChild(p, t, i, j, res, x);
      } else {
        NotThrough(p, Link(i, j), x);
        if |x| > |p| && x[..|p|] == p { FromNext(t, i, j, x[|p|..]); }
      }
    }
  }

  lemma NoPlaceLeft(p: Path, t: Process, i: nat, j: nat, res: Path -> int)
    requires Place(t, i, j) && (i < |t.threads| ==> j == |t.threads[i].children|)
    ensures Order(p, t, i, j, res) == if i == |t.threads| then [] else Order(p, t, i + 1, 0, res)
  {
  }

  lemma NothingFrom(t: Process, i: nat, j: nat, q: Path)
    requires Place(t, i, j) && (i < |t.threads| ==> j == |t.threads[i].children|)
    ensures From(t, i, j, q) <==> i < |t.threads| && From(t, i + 1, 0, q)
  {
  }

  lemma FromNext(t: Process, i: nat, j: nat, q: Path)
    requires q != [] && q[0] != Link(i, j)
    ensures From(t, i, j, q) <==> From(t, i, j + 1, q)
  {
  }

  lemma NotThrough(p: Path, l: Link, x: Path)
    requires !(|x| > |p| && x[..|p|] == p && x[|p|] == l)
    ensures var c := p + [l]; x != c && !(|x| > |c| && x[..|c|] == c)
  {
    var n := |p| + 1;
    if |x| >= n {
      assert x[..n] == x[..|p|] + [x[|p|]];
    }
    assert (p + [l])[..|p|] == p;
  }

  /** The descendants through the child at (i, j). */
  lemma AtChild(p: Path, t: Process, i: nat, j: nat, res: Path -> int, x: Path)
    requires i < |t.threads| && j < |t.threads[i].children| && |x| > |p| && x[..|p|] == p && x[|p|] == Link(i, j)
    ensures var c := p + [Link(i, j)];
            && From(t, i, j, x[|p|..]) == Exists(t.threads[i].children[j], x[|c|..])
            && (Reached(p, x[|p|..], res) <==> x == c || (res(c) > 0 && Reached(c, x[|c|..], res)))
            && |x| >= |c| && x[..|c|] == c && !From(t, i, j + 1, x[|p|..])
            && (|x| == |c| ==> x == c && Exists(t.threads[i].children[j], x[|c|..]))
            && (|x| > |c| ==>
                  From(t.threads[i].children[j], 0, 0, x[|c|..]) == Exists(t.threads[i].children[j], x[|c|..]))
  {
    var c, q := p + [Link(i, j)], x[|p|..];
    assert x[..|c|] == x[..|p|] + [x[|p|]];
    assert q[1..] == x[|c|..] && q[0] == Link(i, j);
    assert |x| == |c| ==> x == c;
    if |x| > |c| {
      var q' := x[|c|..];
      assert q[..1] == [Link(i, j)];
      forall n | 0 < n < |q'| ensures c + q'[..n] == p + q[..n + 1] { }
      forall n | 1 < n < |q| ensures p + q[..n] == c + q'[..n - 1] { }
    }
  }

  /** Order lists the descendants in pre-order, each once. */
  lemma {:induction false} OrderIncreases(p: Path, t: Process, i: nat, j: nat, res: Path -> int, x: nat, y: nat)
    requires Place(t, i, j) && x < y < |Order(p, t, i, j, res)|
    ensures Before(Order(p, t, i, j, res)[x], Order(p, t, i, j, res)[y])
    decreases t, |t.threads| - i, if i < |t.threads| then |t.threads[i].children| - j else 0
  {
    hide Order, Before, Reached, From;
    var o := Order(p, t, i, j, res);
    if i == |t.threads| || j == |t.threads[i].children| {
      NoPlaceLeft(p, t, i, j, res);
      OrderIncreases(p, t, i + 1, 0, res, x, y);
    } else {
      var c, child := p + [Link(i, j)], t.threads[i].children[j];
      var inner := if res(c) > 0 then Order(c, child, 0, 0, res) else [];
      var more := Order(p, t, i, j + 1, res);
      OrderTurn(p, t, i, j, res);
      var n := 1 + |inner|;
      if x >= n {
        OrderIncreases(p, t, i, j + 1, res, x - n, y - n);
        assert o[x] == more[x - n] && o[y] == more[y - n];
      } else if y >= n {
        assert o[x] == if x == 0 then c else inner[x - 1];
        ThroughChild(p, t, i, j, res, o[x]);
        assert o[y] == more[y - n];
        LaterPlace(p, t, i, j + 1, res, o[y]);
        ThroughEarlier(p, o[x], o[y]);
      } else if x > 0 {
        OrderIncreases(c, child, 0, 0, res, x - 1, y - 1);
        assert o[x] == inner[x - 1] && o[y] == inner[y - 1];
      } else {
        assert o[0] == c && o[y] == inner[y - 1];
        OrderContents(c, child, 0, 0, res, o[y]);
        Ancestor(c, o[y]);
      }
    }
  }

  lemma LaterPlace(p: Path, t: Process, i: nat, j: nat, res: Path -> int, x: Path)
    requires Place(t, i, j) && x in Order(p, t, i, j, res)
    ensures |x| > |p| && x[..|p|] == p && (x[|p|].thread > i || (x[|p|].thread == i && x[|p|].child >= j))
  {
    OrderContents(p, t, i, j, res, x);
  }

  lemma ThroughChild(p: Path, t: Process, i: nat, j: nat, res: Path -> int, x: Path)
    requires i < |t.threads| && j < |t.threads[i].children|
    requires var c := p + [Link(i, j)]; x == c || x in Order(c, t.threads[i].children[j], 0, 0, res)
    ensures |x| > |p| && x[..|p|] == p && x[|p|] == Link(i, j)
  {
    var c := p + [Link(i, j)];
    if x != c {
      OrderContents(c, t.threads[i].children[j], 0, 0, res, x);
      assert x[..|c|][..|p|] == x[..|p|] && x[|p|] == x[..|c|][|p|];
    }
    assert c[..|p|] == p;
  }

  lemma {:induction false} ThroughEarlier(p: Path, a: Path, b: Path)
    requires |a| > |p| && |b| > |p| && a[..|p|] == p && b[..|p|] == p
    requires a[|p|].thread < b[|p|].thread || (a[|p|].thread == b[|p|].thread && a[|p|].child < b[|p|].child)
    ensures Before(a, b)
  {
    if p != [] {
      assert a[0] == p[0] && b[0] == p[0];
      assert a[1..][..|p| - 1] == a[..|p|][1..] && b[1..][..|p| - 1] == b[..|p|][1..];
      ThroughEarlier(p[1..], a[1..], b[1..]);
    }
  }

  lemma {:induction false} Ancestor(a: Path, b: Path)
    requires |b| > |a| && b[..|a|] == a
    ensures Before(a, b)
  {
    if a != [] {
      assert b[0] == a[0] && b[1..][..|a| - 1] == b[..|a|][1..];
      Ancestor(a[1..], b[1..]);
    }
  }

  /** Before is a strict order, so an increasing list of given members is unique. */
  lemma {:induction false} BeforeIsStrict(a: Path, b: Path)
    ensures !(Before(a, b) && Before(b, a)) && (a != b ==> Before(a, b) || Before(b, a))
  {
    if a != [] && b != [] && a[0] == b[0] {
      BeforeIsStrict(a[1..], b[1..]);
      assert a[1..] == b[1..] ==> a == [a[0]] + a[1..] == b;
    }
  }

  lemma TailMembers(a: seq<Path>, q: Path)
    requires a != [] && forall x, y | 0 <= x < y < |a| :: Before(a[x], a[y])
    ensures q in a[1..] <==> q in a && q != a[0]
  {
    BeforeIsStrict(a[0], a[0]);
    assert a == [a[0]] + a[1..];
    hide Before;
    if q in a[1..] {
      var y :| 0 <= y < |a| - 1 && a[1..][y] == q;
      assert a[y + 1] == q;
    }
  }

  /** An increasing list is determined by its members. */
  lemma {:induction false} IncreasingUnique(a: seq<Path>, b: seq<Path>)
    requires forall x, y | 0 <= x < y < |a| :: Before(a[x], a[y])
    requires forall x, y | 0 <= x < y < |b| :: Before(b[x], b[y])
    requires forall q :: q in a <==> q in b
    ensures a == b
  {
    hide Before;
    assert a != [] ==> a[0] in a && a[0] in b;
    assert b != [] ==> b[0] in b && b[0] in a;
    if a != [] && b != [] {
      var x :| 0 <= x < |b| && b[x] == a[0];
      var y :| 0 <= y < |a| && a[y] == b[0];
      BeforeIsStrict(a[0], b[0]);
      assert a[0] == b[0];
      forall q ensures q in a[1..] <==> q in b[1..] {
        TailMembers(a, q);
        TailMembers(b, q);
      }
      IncreasingUnique(a[1..], b[1..]);
      assert a == [a[0]] + a[1..] && b == [b[0]] + b[1..];
    }
  }

  /** o holds exactly the descendants all of whose ancestors below the top answered positively, in pre-order. */
  ghost predicate IsPreOrder(o: seq<Path>, top: Process, res: Path -> int) {
    && (forall x :: x in o <==> x != [] && Exists(top, x) && Reached([], x, res))
    && forall x, y | 0 <= x < y < |o| :: Before(o[x], o[y])
  }

  /**
   The calls of a whole walk, for answers that depend on the process alone: one list is the
   pre-order of the descendants reached, and the walk calls the visitor along it, up to and
   including the first negative answer; only that stops it.
   */
  lemma WalkIsPreOrder(top: Process, res: Path -> int) returns (o: seq<Path>)
    ensures IsPreOrder(o, top, res) && forall o' | IsPreOrder(o', top, res) :: o' == o
    ensures Walk([], top, 0, 0, Logger(res), []) == (UpToNegative(o, res), AnyNegative(o, res))
  {
    hide Walk, Order, UpToNegative, AnyNegative, Logger, Before, Reached;
    o := Order([], top, 0, 0, res);
    forall x ensures x in o <==> x != [] && Exists(top, x) && Reached([], x, res) {
      OrderContents([], top, 0, 0, res, x);
      assert x[..0] == [] && x[0..] == x;
    }
    forall x, y | 0 <= x < y < |o| ensures Before(o[x], o[y]) { OrderIncreases([], top, 0, 0, res, x, y); }
    forall o' | IsPreOrder(o', top, res) ensures o' == o { IncreasingUnique(o', o); }
    CallsMade([], top, 0, 0, res, []);
    assert [] + UpToNegative(o, res) == UpToNegative(o, res);
  }

  // ---------------------------------------------------------------- visitors that use their data

  datatype Call = Call(at: Path, answer: int)

  /** Keep a log of all calls with their answers beside the visitor's own data. */
  function Logged<D>(v: Visitor<D>): Visitor<(D, seq<Call>)> {
    (c: Path, x: (D, seq<Call>)) => var (d, r) := v(c, x.0); ((d, x.1 + [Call(c, r)]), r)
  }

  /** The calls a walk makes. */
  function Calls<D>(p: Path, t: Process, i: nat, j: nat, v: Visitor<D>, d: D): seq<Call>
    requires Place(t, i, j)
    decreases t, |t.threads| - i, if i < |t.threads| then |t.threads[i].children| - j else 0
  {
    if i == |t.threads| then []
    else if j == |t.threads[i].children| then Calls(p, t, i + 1, 0, v, d)
    else
      var c := p + [Link(i, j)];
      var (d1, r) := v(c, d);
      var inner := if r > 0 then Calls(c, t.threads[i].children[j], 0, 0, v, d1) else [];
      var w := Below(p, t, i, j, v, d);
      [Call(c, r)] + inner + if w.1 then [] else Calls(p, t, i, j + 1, v, w.0)
  }

  /** The child at (i, j) and what lies below it. */
  function Below<D>(p: Path, t: Process, i: nat, j: nat, v: Visitor<D>, d: D): (D, bool)
    requires i < |t.threads| && j < |t.threads[i].children|
  {
    var c := p + [Link(i, j)];
    var (d1, r) := v(c, d);
    if r > 0 then Walk(c, t.threads[i].children[j], 0, 0, v, d1) else (d1, r < 0)
  }

  lemma BelowThenRest<D>(p: Path, t: Process, i: nat, j: nat, v: Visitor<D>, d: D)
    requires Place(t, i, j) && i < |t.threads| && j < |t.threads[i].children|
    ensures var w := Below(p, t, i, j, v, d);
            Walk(p, t, i, j, v, d) == if w.1 then (w.0, true) else Walk(p, t, i, j + 1, v, w.0)
  {
  }

  lemma CallsTurn<D>(p: Path, t: Process, i: nat, j: nat, v: Visitor<D>, d: D)
    requires Place(t, i, j) && i < |t.threads| && j < |t.threads[i].children|
    ensures var c := p + [Link(i, j)];
            var (d1, r) := v(c, d);
            var inner := if r > 0 then Calls(c, t.threads[i].children[j], 0, 0, v, d1) else [];
            var w := Below(p, t, i, j, v, d);
            Calls(p, t, i, j, v, d) == [Call(c, r)] + inner + if w.1 then [] else Calls(p, t, i, j + 1, v, w.0)
  {
  }

  lemma NoCallsLeft<D>(p: Path, t: Process, i: nat, j: nat, v: Visitor<D>, d: D)
    requires Place(t, i, j) && (i < |t.threads| ==> j == |t.threads[i].children|)
    ensures Calls(p, t, i, j, v, d) == if i == |t.threads| then [] else Calls(p, t, i + 1, 0, v, d)
    ensures Walk(p, t, i, j, v, d) == if i == |t.threads| then (d, false) else Walk(p, t, i + 1, 0, v, d)
  {
  }

  /** Logging changes nothing, and the log is Calls. */
  lemma {:induction false} LogIsCalls<D>(p: Path, t: Process, i: nat, j: nat, v: Visitor<D>, d: D, log: seq<Call>)
    requires Place(t, i, j)
    ensures var w := Walk(p, t, i, j, v, d);
            Walk(p, t, i, j, Logged(v), (d, log)) == ((w.0, log + Calls(p, t, i, j, v, d)), w.1)
    decreases t, |t.threads| - i, if i < |t.threads| then |t.threads[i].children| - j else 0
  {
    hide Walk, Calls;
    if i == |t.threads| || j == |t.threads[i].children| {
      NoCallsLeft(p, t, i, j, v, d);
      NoCallsLeft(p, t, i, j, Logged(v), (d, log));
      if i < |t.threads| { LogIsCalls(p, t, i + 1, 0, v, d, log); } else { assert log + [] == log; }
    } else {
      var c, child := p + [Link(i, j)], t.threads[i].children[j];
      var (d1, r) := v(c, d);
      var l := log + [Call(c, r)];
      CallsTurn(p, t, i, j, v, d);
      BelowThenRest(p, t, i, j, v, d);
      BelowThenRest(p, t, i, j, Logged(v), (d, log));
      var inner := if r > 0 then Calls(c, child, 0, 0, v, d1) else [];
      if r > 0 { LogIsCalls(c, child, 0, 0, v, d1, l); } else { assert l + inner == l; }
      var w := Below(p, t, i, j, v, d);
      assert Below(p, t, i, j, Logged(v), (d, log)) == ((w.0, l + inner), w.1);
      if !w.1 { LogIsCalls(p, t, i, j + 1, v, w.0, l + inner); }
      LogConcat(log, Call(c, r), inner, if w.1 then [] else Calls(p, t, i, j + 1, v, w.0));
    }
  }

  lemma LogConcat<T>(log: seq<T>, x: T, inner: seq<T>, more: seq<T>)
    ensures log + [x] + inner + more == log + ([x] + inner + more)
    ensures log + [x] + inner + [] == log + [x] + inner
  {
  }

  /** Every call from a place on is for a descendant at that place or later. */
  lemma {:induction false} CallsPlace<D>(p: Path, t: Process, i: nat, j: nat, v: Visitor<D>, d: D, x: Call)
    requires Place(t, i, j) && x in Calls(p, t, i, j, v, d)
    ensures |x.at| > |p| && x.at[..|p|] == p
    ensures x.at[|p|].thread > i || (x.at[|p|].thread == i && x.at[|p|].child >= j)
    decreases t, |t.threads| - i, if i < |t.threads| then |t.threads[i].children| - j else 0
  {
    hide Walk, Calls, Below;
    if i == |t.threads| || j == |t.threads[i].children| {
      NoCallsLeft(p, t, i, j, v, d);
      CallsPlace(p, t, i + 1, 0, v, d, x);
    } else {
      var c, child := p + [Link(i, j)], t.threads[i].children[j];
      var (d1, r) := v(c, d);
      CallsTurn(p, t, i, j, v, d);
      var w := Below(p, t, i, j, v, d);
      assert c[..|p|] == p && c[|p|] == Link(i, j);
      if r > 0 && x in Calls(c, child, 0, 0, v, d1) {
        CallsPlace(c, child, 0, 0, v, d1, x);
        assert x.at[..|p|] == x.at[..|c|][..|p|] && x.at[|p|] == x.at[..|c|][|p|];
      } else if x.at != c || x.answer != r {
        CallsPlace(p, t, i, j + 1, v, w.0, x);
      }
    }
  }

  /** No descendant is called twice. */
  lemma {:induction false} CallsDistinct<D>(p: Path, t: Process, i: nat, j: nat, v: Visitor<D>, d: D, x: nat, y: nat)
    requires Place(t, i, j) && x < y < |Calls(p, t, i, j, v, d)|
    ensures Calls(p, t, i, j, v, d)[x].at != Calls(p, t, i, j, v, d)[y].at
    decreases t, |t.threads| - i, if i < |t.threads| then |t.threads[i].children| - j else 0
  {
    hide Walk, Calls, Below;
    if i == |t.threads| || j == |t.threads[i].children| {
      NoCallsLeft(p, t, i, j, v, d);
      CallsDistinct(p, t, i + 1, 0, v, d, x, y);
    } else {
      var c, child := p + [Link(i, j)], t.threads[i].children[j];
      var (d1, r) := v(c, d);
      CallsTurn(p, t, i, j, v, d);
      var o := Calls(p, t, i, j, v, d);
      var inner := if r > 0 then Calls(c, child, 0, 0, v, d1) else [];
      var w := Below(p, t, i, j, v, d);
      var more := if w.1 then [] else Calls(p, t, i, j + 1, v, w.0);
      var n := 1 + |inner|;
      if x >= n {
        CallsDistinct(p, t, i, j + 1, v, w.0, x - n, y - n);
        assert o[x] == more[x - n] && o[y] == more[y - n];
      } else if y >= n {
        assert o[y] == more[y - n] && o[x] == if x == 0 then Call(c, r) else inner[x - 1];
        CallsPlace(p, t, i, j + 1, v, w.0, o[y]);
        assert c[|p|] == Link(i, j);
        if x > 0 {
          CallsPlace(c, child, 0, 0, v, d1, o[x]);
          assert o[x].at[|p|] == o[x].at[..|c|][|p|];
        }
      } else if x > 0 {
        CallsDistinct(c, child, 0, 0, v, d1, x - 1, y - 1);
        assert o[x] == inner[x - 1] && o[y] == inner[y - 1];
      } else {
        assert o[0] == Call(c, r) && o[y] == inner[y - 1];
        CallsPlace(c, child, 0, 0, v, d1, o[y]);
      }
    }
  }

  function Places(calls: seq<Call>): seq<Path> {
    seq(|calls|, k requires 0 <= k < |calls| => calls[k].at)
  }

  predicate AnswersBy(calls: seq<Call>, res: Path -> int) {
    forall k | 0 <= k < |calls| :: res(calls[k].at) == calls[k].answer
  }

  /** A walk behaves like one whose answers depend on the process alone, if those are the answers it got. */
  lemma {:induction false} CallsByAnswers<D>(p: Path, t: Process, i: nat, j: nat, v: Visitor<D>, d: D,
      res: Path -> int, log: seq<Path>)
    requires Place(t, i, j) && AnswersBy(Calls(p, t, i, j, v, d), res)
    ensures Walk(p, t, i, j, Logger(res), log) == (log + Places(Calls(p, t, i, j, v, d)), Walk(p, t, i, j, v, d).1)
    decreases t, |t.threads| - i, if i < |t.threads| then |t.threads[i].children| - j else 0
  {
    hide Walk, Calls, AnswersBy, Places;
    if i == |t.threads| || j == |t.threads[i].children| {
      NoCallsLeft(p, t, i, j, v, d);
      NoCallsLeft(p, t, i, j, Logger(res), log);
      if i < |t.threads| {
        CallsByAnswers(p, t, i + 1, 0, v, d, res, log);
      } else {
        PlacesConcat([], []);
        assert log + [] == log;
      }
    } else {
      var c, child := p + [Link(i, j)], t.threads[i].children[j];
      var (d1, r) := v(c, d);
      var l := log + [c];
      CallsTurn(p, t, i, j, v, d);
      BelowThenRest(p, t, i, j, v, d);
      BelowThenRest(p, t, i, j, Logger(res), log);
      var inner := if r > 0 then Calls(c, child, 0, 0, v, d1) else [];
      var w := Below(p, t, i, j, v, d);
      var more := if w.1 then [] else Calls(p, t, i, j + 1, v, w.0);
      AnswersSplit(Call(c, r), inner, more, res);
      if r > 0 { CallsByAnswers(c, child, 0, 0, v, d1, res, l); } else { assert l + Places(inner) == l; }
      assert Below(p, t, i, j, Logger(res), log) == (l + Places(inner), w.1);
      if !w.1 { CallsByAnswers(p, t, i, j + 1, v, w.0, res, l + Places(inner)); }
      LogConcat(log, c, Places(inner), Places(more));
    }
  }

  lemma PlacesConcat(a: seq<Call>, b: seq<Call>)
    ensures Places(a + b) == Places(a) + Places(b) && Places([]) == []
  {
  }

  lemma AnswersSplit(x: Call, inner: seq<Call>, more: seq<Call>, res: Path -> int)
    requires AnswersBy([x] + inner + more, res)
    ensures res(x.at) == x.answer && AnswersBy(inner, res) && AnswersBy(more, res)
    ensures Places([x] + inner + more) == [x.at] + Places(inner) + Places(more) && Places([]) == []
  {
    var all := [x] + inner + more;
    assert all[0] == x;
    forall k | 0 <= k < |inner| ensures res(inner[k].at) == inner[k].answer { assert all[1 + k] == inner[k]; }
    forall k | 0 <= k < |more| ensures res(more[k].at) == more[k].answer { assert all[1 + |inner| + k] == more[k]; }
    assert Places([x]) == [x.at];
    PlacesConcat([x], inner);
    PlacesConcat([x] + inner, more);
  }

  /** The answer logged for a process. */
  function AnswerAt(calls: seq<Call>, x: Path): int {
    if calls == [] then 0 else if calls[0].at == x then calls[0].answer else AnswerAt(calls[1..], x)
  }

  lemma {:induction false} AnswerFound(calls: seq<Call>, k: nat)
    requires k < |calls| && forall x, y | 0 <= x < y < |calls| :: calls[x].at != calls[y].at
    ensures AnswerAt(calls, calls[k].at) == calls[k].answer
  {
    if k > 0 {
      assert calls[1..][k - 1] == calls[k];
      AnswerFound(calls[1..], k - 1);
    }
  }

  /**
   Any visitor, whatever it makes of its data: with res the answers it gave, its calls are
   those of the pre-order of the descendants reached, up to and including the first
   negative answer; it stops exactly then.
   */
  lemma AnyWalkIsPreOrder<D>(top: Process, v: Visitor<D>, d: D)
      returns (calls: seq<Call>, res: Path -> int, o: seq<Path>)
    ensures var w := Walk([], top, 0, 0, v, d);
            && Walk([], top, 0, 0, Logged(v), (d, [])) == ((w.0, calls), w.1)
            && AnswersBy(calls, res) && IsPreOrder(o, top, res)
            && Places(calls) == UpToNegative(o, res) && w.1 == AnyNegative(o, res)
  {
    hide Walk, Calls, UpToNegative, AnyNegative, IsPreOrder, AnswerAt;
    calls := Calls([], top, 0, 0, v, d);
    LogIsCalls([], top, 0, 0, v, d, []);
    assert [] + calls == calls && [] + Places(calls) == Places(calls);
    var all := calls;
    res := x => AnswerAt(all, x);
    forall x, y | 0 <= x < y < |calls| ensures calls[x].at != calls[y].at { CallsDistinct([], top, 0, 0, v, d, x, y); }
    forall k | 0 <= k < |calls| ensures res(calls[k].at) == calls[k].answer { AnswerFound(calls, k); }
    CallsByAnswers([], top, 0, 0, v, d, res, []);
    o := WalkIsPreOrder(top, res);
  }

  // ---------------------------------------------------------------- the walk without a stack

  /** What is left to do at place (i, j) of the descendant q, and then of its ancestors. */
  function Rest<D>(p: Path, t: Process, q: Path, i: nat, j: nat, v: Visitor<D>, d: D): (D, bool)
    requires Exists(t, q) && Place(At(t, q), i, j)
    decreases |q|
  {
    if q == [] then Walk(p, t, i, j, v, d)
    else
      var (d1, stop) := Rest(p + [q[0]], Child(t, q[0]), q[1..], i, j, v, d);
      if stop then (d1, true) else Walk(p, t, q[0].thread, q[0].child + 1, v, d1)
  }

  /** The steps left, counting every descendant. */
  function Work(t: Process, i: nat, j: nat): nat
    requires Place(t, i, j)
    decreases t, |t.threads| - i, if i < |t.threads| then |t.threads[i].children| - j else 0
  {
    if i == |t.threads| then 0
    else if j == |t.threads[i].children| then 1 + Work(t, i + 1, 0)
    else 2 + Work(t.threads[i].children[j], 0, 0) + Work(t, i, j + 1)
  }

  function Left(t: Process, q: Path, i: nat, j: nat): nat
    requires Exists(t, q) && Place(At(t, q), i, j)
    decreases |q|
  {
    if q == [] then Work(t, i, j)
    else Left(Child(t, q[0]), q[1..], i, j) + 1 + Work(t, q[0].thread, q[0].child + 1)
  }

  lemma {:induction false} ChildExists(t: Process, q: Path, l: Link)
    requires Exists(t, q) && HasChild(At(t, q), l)
    ensures Exists(t, q + [l]) && At(t, q + [l]) == Child(At(t, q), l)
  {
    if q == [] {
      assert (q + [l])[1..] == [];
    } else {
      ChildExists(Child(t, q[0]), q[1..], l);
      assert (q + [l])[1..] == q[1..] + [l];
    }
  }

  lemma {:induction false} ParentExists(t: Process, q: Path)
    requires Exists(t, q) && q != []
    ensures Exists(t, q[..|q| - 1]) && HasChild(At(t, q[..|q| - 1]), q[|q| - 1])
    ensures Child(At(t, q[..|q| - 1]), q[|q| - 1]) == At(t, q)
  {
    if |q| > 1 {
      ParentExists(Child(t, q[0]), q[1..]);
      assert q[1..][..|q| - 2] == q[..|q| - 1][1..];
    } else {
      assert q[1..] == [];
    }
  }

  /** Past the last child of a thread. */
  lemma {:induction false} RestNextThread<D>(p: Path, t: Process, q: Path, i: nat, v: Visitor<D>, d: D)
    requires Exists(t, q) && i < |At(t, q).threads|
    ensures Rest(p, t, q, i, |At(t, q).threads[i].children|, v, d) == Rest(p, t, q, i + 1, 0, v, d)
    ensures Left(t, q, i, |At(t, q).threads[i].children|) > Left(t, q, i + 1, 0)
    decreases |q|
  {
    if q != [] { RestNextThread(p + [q[0]], Child(t, q[0]), q[1..], i, v, d); }
  }

  /** One call of the visitor. */
  lemma {:induction false} RestVisit<D>(p: Path, t: Process, q: Path, i: nat, j: nat, v: Visitor<D>, d: D)
    requires Exists(t, q) && i < |At(t, q).threads| && j < |At(t, q).threads[i].children|
    ensures var l := Link(i, j);
            var (d1, r) := v(p + q + [l], d);
            && Exists(t, q + [l]) && At(t, q + [l]) == At(t, q).threads[i].children[j]
            && Left(t, q, i, j) > Left(t, q, i, j + 1)
            && Left(t, q, i, j) > Left(t, q + [l], 0, 0)
            && Rest(p, t, q, i, j, v, d) ==
               if r < 0 then (d1, true)
               else if r > 0 then Rest(p, t, q + [l], 0, 0, v, d1)
               else Rest(p, t, q, i, j + 1, v, d1)
    decreases |q|
  {
    var l := Link(i, j);
    ChildExists(t, q, l);
    if q == [] {
      assert p + q == p && (q + [l])[1..] == [] && (q + [l])[0] == l;
    } else {
      RestVisit(p + [q[0]], Child(t, q[0]), q[1..], i, j, v, d);
      assert (q + [l])[1..] == q[1..] + [l] && (q + [l])[0] == q[0];
      assert p + [q[0]] + q[1..] == p + q;
    }
  }

  /** Done with all threads of a descendant: back to its parent, after it. */
  lemma {:induction false} RestBack<D>(p: Path, t: Process, q: Path, v: Visitor<D>, d: D)
    requires Exists(t, q) && q != []
    ensures var up, l, n := q[..|q| - 1], q[|q| - 1], |At(t, q).threads|;
            && Exists(t, up) && HasChild(At(t, up), l)
            && Left(t, q, n, 0) > Left(t, up, l.thread, l.child + 1)
            && Rest(p, t, q, n, 0, v, d) == Rest(p, t, up, l.thread, l.child + 1, v, d)
    decreases |q|
  {
    ParentExists(t, q);
    var up, c := q[..|q| - 1], Child(t, q[0]);
    if |q| == 1 {
      assert q[1..] == [] && up == [];
    } else {
      RestBack(p + [q[0]], c, q[1..], v, d);
      assert q[1..][..|q| - 2] == up[1..] && up[0] == q[0];
    }
  }

  /**
   walk_process_tree: on every finite process tree it ends, and leaves the data the
   recursive walk leaves. The code's labels are the two ways into the double loop: "down"
   starts it for a new leader, "up" goes on after the leader just finished.
   */
  method WalkProcessTree<D>(top: Process, visitor: Visitor<D>, data: D) returns (d: D, ghost stopped: bool)
    ensures d == Walk([], top, 0, 0, visitor, data).0
    ensures stopped == Walk([], top, 0, 0, visitor, data).1
  {
    hide Rest, Left, Walk;
    var leader: Path := [];
    var i: nat, j: nat := 0, 0;
    d, stopped := data, false;
    StartWalk(top, visitor, d);
    while true
      invariant Exists(top, leader) && Place(At(top, leader), i, j)
      invariant Rest([], top, leader, i, j, visitor, d) == Walk([], top, 0, 0, visitor, data)
      decreases Left(top, leader, i, j)
    {
      var process := At(top, leader);
      if i < |process.threads| && j < |process.threads[i].children| {
        RestVisit([], top, leader, i, j, visitor, d);
        var child := leader + [Link(i, j)];
        assert [] + leader == leader;
        var r := visitor(child, d);
        d := r.0;
        if r.1 != 0 {
          if r.1 < 0 {
            stopped := true;
            return;
          }
          leader, i, j := child, 0, 0;
        } else {
          j := j + 1;
        }
      } else if i < |process.threads| {
        RestNextThread([], top, leader, i, visitor, d);
        i, j := i + 1, 0;
      } else if leader != [] {
        RestBack([], top, leader, visitor, d);
        var child := leader;
        leader := child[..|child| - 1];
        i, j := child[|child| - 1].thread, child[|child| - 1].child + 1;
      } else {
        EndWalk(top, visitor, d);
        return;
      }
    }
  }

  lemma StartWalk<D>(top: Process, v: Visitor<D>, d: D)
    ensures Rest([], top, [], 0, 0, v, d) == Walk([], top, 0, 0, v, d)
  {
  }

  lemma EndWalk<D>(top: Process, v: Visitor<D>, d: D)
    ensures Rest([], top, [], |top.threads|, 0, v, d) == (d, false)
  {
  }
}
