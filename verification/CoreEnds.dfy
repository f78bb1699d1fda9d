/**
 When the core-wide selection of module CorePick ends (kernel/sched/core.c, the goto again of
 pick_next_task), for any number of siblings: exactly if the siblings do not hold a trap, a
 pair of deadline tasks with equal deadlines that keep displacing each other. And what each
 sibling runs when it has ended.
 */
module CoreEnds {
  import opened Wrappers
  import opened CorePick

  // ---------------------------------------------------------------- the condition

  /** A deadline task on top of this sibling is later than d. */
  predicate Later(sib: Sibling, d: int) {
    Top(sib).class_ == DL ==> Top(sib).deadline > d
  }

  /**
   a and b tie with different cookies, nothing before a is as early, and nothing between them
   is either, unless it carries a's cookie. Siblings count in visiting order.
   */
  predicate Trap(sibs: seq<Sibling>, a: nat, b: nat) {
    && a < b < |sibs| && Tied(sibs[a], sibs[b])
    && var t := Top(sibs[a]);
       && (forall j | 0 <= j < a :: Later(sibs[j], t.deadline))
       && (forall j | a < j < b :: Later(sibs[j], t.deadline) || Top(sibs[j]).cookie == t.cookie)
  }

  predicate NoStop(sibs: seq<Sibling>) {
    forall j | 0 <= j < |sibs| :: Top(sibs[j]).class_ != STOP
  }

  predicate Endless(sibs: seq<Sibling>) {
    NoStop(sibs) && exists a, b | 0 <= a < b < |sibs| :: Trap(sibs, a, b)
  }

  predicate NoTies(sibs: seq<Sibling>) {
    forall a, b | 0 <= a < |sibs| && 0 <= b < |sibs| && a != b :: !Tied(sibs[a], sibs[b])
  }

  /** Distinct deadlines on the core leave no tie, and so no trap. */
  lemma DistinctDeadlinesHaveNoTies(sibs: seq<Sibling>)
    requires CoreOk(sibs)
    requires forall a, b, s, t | 0 <= a < |sibs| && 0 <= b < |sibs| && a != b && s in sibs[a].tasks &&
        t in sibs[b].tasks
               && s.class_ == DL && t.class_ == DL :: s.deadline != t.deadline
    ensures NoTies(sibs) && !Endless(sibs)
  {
    forall a, b | 0 <= a < |sibs| && 0 <= b < |sibs| && a != b ensures !Tied(sibs[a], sibs[b]) {
      TopFacts(sibs[a], sibs[a].idle);
      TopFacts(sibs[b], sibs[b].idle);
    }
  }

  // ---------------------------------------------------------------- what each pick is

  /** Against max m, pick_task passes over the deadline task e. */
  predicate Beaten(e: Task, m: Task) {
    e.cookie != m.cookie && if m.cookie == 0 then PrioLess(e, m) else !PrioLess(m, e)
  }

  predicate HasCookie(sib: Sibling, cookie: nat) {
    exists t | t in sib.tasks :: t.cookie == cookie
  }

  /**
   With a core cookie a sibling runs its most urgent task of that cookie, and idles only if
   it has none. Without one it runs its most urgent task if that has no cookie, and idles
   otherwise, even when it has others without a cookie.
   */
  predicate Served(sib: Sibling, p: Task, cookie: nat) {
    if cookie == 0 then
      if Top(sib).cookie == 0 then p == Top(sib) else IsIdle(p)
    else
      && (IsIdle(p) <==> !HasCookie(sib, cookie))
      && (forall t | t in sib.tasks && t.cookie == cookie :: !Below(p, t))
  }

  /** A sibling whose most urgent task is a deadline task runs it unless max beats it. */
  predicate DeadlineMet(sib: Sibling, p: Task, max: Task) {
    Top(sib).class_ == DL ==> p == Top(sib) || Beaten(Top(sib), max)
  }

  predicate Decided(sib: Sibling, pick: Option<Task>, max: Task) {
    pick.Some? ==> Served(sib, pick.value, max.cookie) && DeadlineMet(sib, pick.value, max)
  }

  predicate AllDecided(sibs: seq<Sibling>, s: Sel) {
    InStep(sibs, s) && (s.max.Some? ==> forall j | 0 <= j < |sibs| :: Decided(sibs[j], s.picks[j], s.max.value))
  }

  /** What CookieFind finds is the best of its cookie. */
  lemma CookieFindServes(sib: Sibling, cookie: nat)
    requires SiblingOk(sib)
    ensures var c := CookieFind(sib, cookie);
            && (IsIdle(c) <==> !HasCookie(sib, cookie)) && (c in sib.tasks || c == sib.idle)
            && forall t | t in sib.tasks && t.cookie == cookie :: !Below(c, t)
  {
    var ts := OfCookie(sib.tasks, cookie);
    forall t: Task ensures t in ts <==> t in sib.tasks && t.cookie == cookie { OfCookieFacts(sib.tasks, cookie, t); }
    if ts != [] {
      forall t | t in ts ensures !Below(Best(ts), t) { BestFacts(ts, t); }
      BestFacts(ts, sib.idle);
      assert TaskOk(Best(ts));
    }
    if HasCookie(sib, cookie) {
      var t :| t in sib.tasks && t.cookie == cookie;
      assert t in ts;
    }
  }

  /** Every task of a runqueue is at most as urgent as its top. */
  lemma TopServes(sib: Sibling, cookie: nat)
    requires SiblingOk(sib) && Top(sib).cookie == cookie && !IsIdle(Top(sib))
    ensures HasCookie(sib, cookie) && forall t | t in sib.tasks :: !Below(Top(sib), t)
  {
    forall t | t in sib.tasks ensures !Below(Top(sib), t) { TopFacts(sib, t); }
    TopFacts(sib, sib.idle);
  }

  lemma IdleTop(sib: Sibling)
    requires SiblingOk(sib) && IsIdle(Top(sib))
    ensures sib.tasks == [] && Top(sib).cookie == 0
  {
    TopFacts(sib, sib.idle);
  }

  lemma PickMeetsDeadline(sib: Sibling, k: nat, m: Task)
    requires SiblingOk(sib) && NothingBefore(sib, k) && k <= IDLE
    ensures var p := PickTask(sib, k, Some(m), m.cookie);
            p.Some? ==> DeadlineMet(sib, p.value, m)
  {
    ClassPickIsTop(sib, k);
    TopOk(sib);
    var c := CookieFind(sib, m.cookie);
    CookieFindFacts(sib, m.cookie);
    TopFacts(sib, c);
    assert c in sib.tasks ==> TaskOk(c) && c.class_ >= k;
  }

  lemma PickServes(sib: Sibling, k: nat, m: Task)
    requires SiblingOk(sib) && NothingBefore(sib, k) && k <= IDLE
    requires NothingBefore(sib, m.class_) && (IsIdle(m) ==> m.cookie == 0)
    ensures var p := PickTask(sib, k, Some(m), m.cookie);
            p.Some? && CookieMatch(m, p.value) ==> Served(sib, p.value, m.cookie)
  {
    ClassPickIsTop(sib, k);
    CookieFindServes(sib, m.cookie);
    if IsIdle(Top(sib)) { IdleTop(sib); } else { TopServes(sib, Top(sib).cookie); }
    TopOk(sib);
    if IsIdle(m) && Top(sib) in sib.tasks { assert TaskOk(Top(sib)) && Top(sib).class_ >= IDLE; }
    hide Top, CookieFind, ClassPick, Below, TaskOk, PrioLess;
  }

  /** A sibling's own top is decided for itself as max. */
  lemma TopDecided(sib: Sibling)
    requires SiblingOk(sib)
    ensures Decided(sib, Some(Top(sib)), Top(sib))
  {
    if IsIdle(Top(sib)) { IdleTop(sib); } else { TopServes(sib, Top(sib).cookie); }
  }

  // ---------------------------------------------------------------- the invariant

  /** Max stands at sibling x, and no earlier sibling has an as early deadline with max's cookie on top. */
  predicate MaxAt(sibs: seq<Sibling>, s: Sel, x: nat) {
    s.max.Some? ==>
      && MaxFrom(sibs, s, x)
      && forall j | 0 <= j < x :: s.max.value.class_ == DL && Top(sibs[j]).cookie == s.cookie ==>
          Later(sibs[j], s.max.value.deadline)
  }

  ghost predicate Sound(sibs: seq<Sibling>, s: Sel, x: nat) {
    CoreOk(sibs) && Good(sibs, s) && AllDecided(sibs, s) && MaxAt(sibs, s, x)
  }

  lemma StartSound(sibs: seq<Sibling>)
    requires CoreOk(sibs)
    ensures Sound(sibs, Start(|sibs|), 0)
  {
    StartGood(sibs);
  }

  /** What the invariant says of the sibling whose turn it is. */
  lemma TurnFacts(sibs: seq<Sibling>, s: Sel)
    requires CoreOk(sibs) && Good(sibs, s) && s.i < |sibs| && !Finished(s)
    ensures SiblingOk(sibs[s.i]) && s.k <= IDLE
    ensures s.picks[s.i].None? ==> NothingBefore(sibs[s.i], s.k)
    ensures s.max.Some? ==> NothingBefore(sibs[s.i], s.max.value.class_) && s.cookie == s.max.value.cookie
    ensures s.max.Some? && IsIdle(s.max.value) ==> s.cookie == 0
    ensures s.max.None? ==> s.cookie == 0 && s.picks[s.i].None?
  {
    if s.max.Some? && IsIdle(s.max.value) {
      var x: nat :| MaxFrom(sibs, s, x);
      IdleTop(sibs[x]);
    }
  }

  lemma StepDecides(sibs: seq<Sibling>, s: Sel)
    requires CoreOk(sibs) && Good(sibs, s) && !Finished(s) && AllDecided(sibs, s)
    ensures AllDecided(sibs, Step(sibs, s))
  {
    StepGood(sibs, s);
    if s.i < |sibs| && s.picks[s.i].None? {
      TurnFacts(sibs, s);
      TopDecided(sibs[s.i]);
      hide Good;
      if s.max.None? {
        FirstPick(sibs[s.i], s.k);
      } else {
        PickMeetsDeadline(sibs[s.i], s.k, s.max.value);
        PickServes(sibs[s.i], s.k, s.max.value);
        IncompatiblePick(sibs[s.i], s.k, s.max.value);
      }
    }
    hide PickTask, Served, DeadlineMet, Top, NothingBefore, Good, CoreOk, SiblingOk;
  }

  /** The siblings before the one whose turn it is, in the class of their top task. */
  lemma EarlierPicked(sibs: seq<Sibling>, s: Sel, j: nat)
    requires CoreOk(sibs) && Good(sibs, s) && AllDecided(sibs, s) && !Finished(s) && j < s.i && s.k == DL
    requires Top(sibs[j]).class_ == DL
    ensures s.picks[j].Some? && s.max.Some? && s.max.value.class_ <= DL
    ensures CookieMatch(s.max.value, s.picks[j].value) && DeadlineMet(sibs[j], s.picks[j].value, s.max.value)
    ensures s.cookie == s.max.value.cookie && Top(sibs[j]).prio == -1
  {
    if s.picks[j].None? { NoDeadlineTop(sibs[j]); }
    TopFacts(sibs[j], sibs[j].idle);
    TopOk(sibs[j]);
    assert s.max.Some? ==> PickOk(sibs[j], s.picks[j].value, s.max.value) && Decided(sibs[j], s.picks[j], s.max.value);
    hide Top, TallyOk, Justified, Served;
  }

  /** A deadline task passed by on the way is beaten by max or has its cookie. */
  lemma PassedBy(sibs: seq<Sibling>, s: Sel, j: nat)
    requires CoreOk(sibs) && Good(sibs, s) && AllDecided(sibs, s) && !Finished(s) && j < s.i && s.k == DL
    requires Top(sibs[j]).class_ == DL && s.max.Some? && s.max.value.class_ == DL && s.max.value.prio == -1
    ensures Top(sibs[j]).cookie == s.cookie ||
            if s.cookie == 0 then Top(sibs[j]).deadline >= s.max.value.deadline
            else Top(sibs[j]).deadline > s.max.value.deadline
  {
    EarlierPicked(sibs, s, j);
    hide Good, AllDecided, CoreOk, Top;
  }

  /** A restart keeps the place of max: nothing before it has its cookie and a deadline as early. */
  lemma RestartPlace(sibs: seq<Sibling>, s: Sel, x: nat)
    requires Sound(sibs, s, x) && !Finished(s) && Restarts(sibs, s)
    ensures MaxAt(sibs, Step(sibs, s), s.i)
  {
    StepGood(sibs, s);
    RestartPick(sibs, s, x);
    var m, p := s.max.value, Top(sibs[s.i]);
    DeadlineTop(sibs, x);
    DeadlineTop(sibs, s.i);
    forall j | 0 <= j < s.i && p.class_ == DL && Top(sibs[j]).cookie == p.cookie ensures Later(sibs[j], p.deadline) {
      if Top(sibs[j]).class_ == DL { PassedBy(sibs, s, j); }
    }
    hide Good, AllDecided, CoreOk, PickTask, Top;
  }

  lemma DeadlineTop(sibs: seq<Sibling>, j: nat)
    requires CoreOk(sibs) && j < |sibs|
    ensures Top(sibs[j]).class_ == DL ==> Top(sibs[j]).prio == -1
    ensures Top(sibs[j]).class_ == IDLE ==> Top(sibs[j]).cookie == 0
  {
    TopOk(sibs[j]);
    if Top(sibs[j]).class_ == IDLE { IdleTop(sibs[j]); }
  }

  /** The first max has no deadline task before it. */
  lemma FirstPlace(sibs: seq<Sibling>, s: Sel)
    requires CoreOk(sibs) && Good(sibs, s) && !Finished(s) && s.max.None? && s.i < |sibs|
    ensures MaxAt(sibs, Step(sibs, s), s.i)
  {
    StepGood(sibs, s);
    TurnFacts(sibs, s);
    FirstPick(sibs[s.i], s.k);
    forall j | 0 <= j < s.i && s.k == DL ensures Top(sibs[j]).class_ != DL {
      assert NothingBefore(sibs[j], s.k + 1);
      TopFacts(sibs[j], sibs[j].idle);
    }
    hide Good, PickTask, Top, CoreOk;
  }

  lemma StepSound(sibs: seq<Sibling>, s: Sel, x: nat)
    requires Sound(sibs, s, x) && !Finished(s)
    ensures Sound(sibs, Step(sibs, s), NextMax(sibs, s, x))
  {
    StepGood(sibs, s);
    StepDecides(sibs, s);
    assert s.max.None? && s.i == |sibs| ==> Step(sibs, s).max.None?;
    if s.max.None? && s.i < |sibs| { FirstPlace(sibs, s); }
    if Restarts(sibs, s) { RestartPlace(sibs, s, x); }
    assert s.max.Some? && !Restarts(sibs, s) ==> Step(sibs, s).max == s.max && Step(sibs, s).cookie == s.cookie;
    hide Good, AllDecided, CoreOk, PickTask, Top, Step;
  }

  // ---------------------------------------------------------------- without a trap it ends

  /** Two deadline tasks that tie, both with a cookie. */
  predicate SameRank(s: Task, t: Task) {
    s.class_ == DL && t.class_ == DL && s.prio == t.prio == -1 && s.deadline == t.deadline && s.cookie != 0 &&
        t.cookie != 0
  }

  /** Max can only move from x to y. */
  predicate Outranks(sibs: seq<Sibling>, y: nat, x: nat)
    requires x < |sibs| && y < |sibs|
  {
    KeyLess(Top(sibs[x]), Top(sibs[y])) || (SameRank(Top(sibs[x]), Top(sibs[y])) && y < x)
  }

  lemma OutranksTransitive(sibs: seq<Sibling>, x: nat, y: nat, z: nat)
    requires x < |sibs| && y < |sibs| && z < |sibs| && Outranks(sibs, z, y) && Outranks(sibs, y, x)
    ensures Outranks(sibs, z, x) && x != z
  {
    var a, b, c := Top(sibs[x]), Top(sibs[y]), Top(sibs[z]);
    hide Top;
    if KeyLess(a, b) && KeyLess(b, c) { KeyLessTransitive(a, b, c); }
  }

  /** The siblings that could still become max. */
  function Above(sibs: seq<Sibling>, x: nat): set<nat>
    requires x < |sibs|
  {
    set j | 0 <= j < |sibs| && Outranks(sibs, j, x)
  }

  lemma {:induction false} BoundedSet(s: set<nat>, n: nat)
    requires forall x | x in s :: x < n
    ensures |s| <= n
  {
    if n > 0 { BoundedSet(s - {n - 1}, n - 1); } else { assert s == {}; }
  }

  lemma {:induction false} SubsetSize(x: set<nat>, y: set<nat>)
    requires x <= y
    ensures |x| <= |y|
  {
    if x != {} {
      var e :| e in x;
      SubsetSize(x - {e}, y - {e});
    }
  }

  lemma AboveShrinks(sibs: seq<Sibling>, x: nat, i: nat)
    requires x < |sibs| && i < |sibs| && Outranks(sibs, i, x)
    ensures |Above(sibs, i)| < |Above(sibs, x)|
  {
    var new_, old_ := Above(sibs, i), Above(sibs, x);
    forall j | j in new_ ensures j in old_ { OutranksTransitive(sibs, x, i, j); }
    assert i in old_;
    if i in new_ { OutranksTransitive(sibs, i, i, i); }
    SubsetSize(new_, old_ - {i});
  }

  lemma FirstAbove(sibs: seq<Sibling>, i: nat)
    requires i < |sibs|
    ensures |Above(sibs, i)| <= |sibs| - 1
  {
    if i in Above(sibs, i) { OutranksTransitive(sibs, i, i, i); }
    BoundedSet(Above(sibs, i) + {i}, |sibs|);
  }

  function RestartsLeft(sibs: seq<Sibling>, s: Sel, x: nat): nat
    requires sibs != [] && (s.max.Some? ==> x < |sibs|)
  {
    if s.max.None? then |sibs| - 1 else |Above(sibs, x)|
  }

  /** A tie that makes a later sibling displace an earlier one belongs to a trap. */
  lemma LateTieIsTrap(sibs: seq<Sibling>, s: Sel, x: nat)
    requires Sound(sibs, s, x) && !Finished(s) && Restarts(sibs, s) && Tied(sibs[x], sibs[s.i]) && s.i > x
    ensures Trap(sibs, x, s.i) && NoStop(sibs)
  {
    RestartPick(sibs, s, x);
    DeadlineTop(sibs, x);
    var m := s.max.value;
    forall j | 0 <= j < |sibs| ensures Top(sibs[j]).class_ != STOP {
      TopFacts(sibs[j], sibs[j].idle);
      assert NothingBefore(sibs[j], m.class_);
    }
    forall j | 0 <= j < s.i && j != x
      ensures Later(sibs[j], m.deadline) || (j > x && Top(sibs[j]).cookie == m.cookie)
    {
      if Top(sibs[j]).class_ == DL { PassedBy(sibs, s, j); }
    }
    hide Good, AllDecided, CoreOk, PickTask, Top;
  }

  /** So without a trap every restart brings max to a sibling that outranks it. */
  lemma RestartOutranks(sibs: seq<Sibling>, s: Sel, x: nat)
    requires Sound(sibs, s, x) && !Finished(s) && Restarts(sibs, s) && !Endless(sibs)
    ensures x < |sibs| && Outranks(sibs, s.i, x)
  {
    RestartPick(sibs, s, x);
    if Tied(sibs[x], sibs[s.i]) {
      DeadlineTop(sibs, x);
      DeadlineTop(sibs, s.i);
      if s.i > x { LateTieIsTrap(sibs, s, x); }
    }
    hide Good, AllDecided, CoreOk, PickTask, Top, Trap, KeyLess;
  }

  /** Without a trap every turn comes closer to the end. */
  lemma StepCloser(sibs: seq<Sibling>, s: Sel, x: nat)
    requires Sound(sibs, s, x) && !Finished(s) && !Endless(sibs)
    ensures var s', x' := Step(sibs, s), NextMax(sibs, s, x);
            && Sound(sibs, s', x') && InStep(sibs, s) && InStep(sibs, s') && s.k <= IDLE && s'.k <= IDLE + 1 &&
                sibs != []
            && (s.max.Some? ==> x < |sibs|) && (s'.max.Some? ==> x' < |sibs|)
            && (if Restarts(sibs, s) then RestartsLeft(sibs, s', x') < RestartsLeft(sibs, s, x)
                else RestartsLeft(sibs, s', x') <= RestartsLeft(sibs, s, x) &&
                     (s'.k > s.k || (s'.k == s.k && s'.i > s.i)))
  {
    StepGood(sibs, s);
    StepSound(sibs, s, x);
    if Restarts(sibs, s) {
      RestartOutranks(sibs, s, x);
      AboveShrinks(sibs, x, s.i);
    } else if s.max.None? && s.i < |sibs| {
      FirstAbove(sibs, s.i);
    }
    hide UnpickedOk, MaxOk, TallyOk, AllDecided, PickTask, Top, Endless, Above;
  }

  function RestartCount(sibs: seq<Sibling>, s: Sel, n: nat): nat
    requires InStep(sibs, s)
    decreases n
  {
    if n == 0 || Finished(s) then 0
    else (if Restarts(sibs, s) then 1 else 0) + RestartCount(sibs, Step(sibs, s), n - 1)
  }

  lemma SoundBounds(sibs: seq<Sibling>, s: Sel, x: nat)
    requires Sound(sibs, s, x)
    ensures InStep(sibs, s) && sibs != [] && (s.max.Some? ==> x < |sibs|)
  {
  }

  lemma {:induction false} Ends(sibs: seq<Sibling>, s: Sel, x: nat) returns (n: nat, y: nat)
    requires Sound(sibs, s, x) && !Endless(sibs)
    ensures Finished(Iter(sibs, s, n)) && Sound(sibs, Iter(sibs, s, n), y)
    ensures RestartCount(sibs, s, n) <= RestartsLeft(sibs, s, x)
    decreases RestartsLeft(sibs, s, x), IDLE + 1 - s.k, |sibs| - s.i
  {
    hide Sound, Endless, Step, RestartsLeft, Restarts, NextMax;
    SoundBounds(sibs, s, x);
    if Finished(s) {
      n, y := 0, x;
    } else {
      StepCloser(sibs, s, x);
      n, y := Ends(sibs, Step(sibs, s), NextMax(sibs, s, x));
      n := n + 1;
    }
  }

  /** What a selection that has ended leaves on every sibling. */
  ghost predicate AllServed(sibs: seq<Sibling>, s: Sel) {
    |s.picks| == |sibs| && forall j | 0 <= j < |sibs| :: s.picks[j].Some? && Served(sibs[j], s.picks[j].value, s.cookie)
  }

  lemma SoundServes(sibs: seq<Sibling>, s: Sel, x: nat)
    requires Sound(sibs, s, x) && Finished(s)
    ensures Selected(sibs, s) && AllServed(sibs, s)
  {
    FinishedIsSelected(sibs, s);
    assert forall j | 0 <= j < |sibs| :: Decided(sibs[j], s.picks[j], s.max.value);
    hide Good, Served, CoreOk;
  }

  /**
   For any number of siblings and tasks, without a trap, the selection ends after at most
   one restart fewer than there are siblings. Every sibling then has a pick, all picks may
   share the core, a sibling is held below its best task only when the core's max is at
   least as urgent as that task, and each sibling is served as the core's cookie allows.
   */
  lemma SelectionEnds(sibs: seq<Sibling>) returns (n: nat)
    requires CoreOk(sibs) && !Endless(sibs)
    ensures var s := Iter(sibs, Start(|sibs|), n); Finished(s) && Selected(sibs, s) && AllServed(sibs, s)
    ensures RestartCount(sibs, Start(|sibs|), n) <= |sibs| - 1
  {
    StartSound(sibs);
    hide Sound, Endless, Selected, AllServed, Iter;
    var y;
    n, y := Ends(sibs, Start(|sibs|), 0);
    SoundServes(sibs, Iter(sibs, Start(|sibs|), n), y);
  }

  lemma OutcomeSelected(sibs: seq<Sibling>)
    requires CoreOk(sibs) && !Endless(sibs)
    ensures exists s :: IsOutcome(sibs, s) && Selected(sibs, s)
  {
    hide CoreOk, Endless, Selected, AllServed, Iter;
    var n := SelectionEnds(sibs);
    assert IsOutcome(sibs, Iter(sibs, Start(|sibs|), n));
  }

  lemma {:induction false} IterSound(sibs: seq<Sibling>, s: Sel, x: nat, n: nat) returns (y: nat)
    requires Sound(sibs, s, x)
    ensures InStep(sibs, s) && Sound(sibs, Iter(sibs, s, n), y)
    decreases n
  {
    hide Sound, Step, NextMax;
    SoundBounds(sibs, s, x);
    y := x;
    if n > 0 && !Finished(s) {
      StepSound(sibs, s, x);
      y := IterSound(sibs, Step(sibs, s), NextMax(sibs, s, x), n - 1);
    }
  }

  /** Whatever the siblings hold, a selection that has ended has served them all. */
  lemma OutcomeServes(sibs: seq<Sibling>, s: Sel)
    requires CoreOk(sibs) && IsOutcome(sibs, s)
    ensures Selected(sibs, s) && AllServed(sibs, s)
  {
    StartSound(sibs);
    hide Sound, Selected, AllServed, Iter;
    var n: nat :| Finished(Iter(sibs, Start(|sibs|), n)) && s == Iter(sibs, Start(|sibs|), n);
    var y := IterSound(sibs, Start(|sibs|), 0, n);
    SoundServes(sibs, s, y);
  }

  /** No task of the sibling is more urgent than both its pick and the core's max. */
  predicate Fair(sib: Sibling, p: Task, max: Task) {
    forall t | t in sib.tasks :: !MoreUrgent(t, p) || !MoreUrgent(t, max)
  }

  ghost predicate AllFair(sibs: seq<Sibling>, s: Sel) {
    && |s.picks| == |sibs| && s.max.Some? && (forall j | 0 <= j < |sibs| :: s.picks[j].Some?)
    && (exists j :: 0 <= j < |sibs| && s.picks[j] == s.max)
    && (forall j | 0 <= j < |sibs| :: Fair(sibs[j], s.picks[j].value, s.max.value))
    && (forall j | 0 <= j < |sibs| :: s.picks[j].value.cookie == s.max.value.cookie || IsIdle(s.picks[j].value))
  }

  /** A task is passed over only for a max at least as urgent. */
  lemma SelectedIsFair(sibs: seq<Sibling>, s: Sel)
    requires CoreOk(sibs) && Selected(sibs, s)
    ensures AllFair(sibs, s)
  {
    var m: nat :| MaxFrom(sibs, s, m) &&
                  forall j | 0 <= j < |sibs| :: Justified(sibs[j], s.picks[j].value, s.max.value);
    TopProper(sibs[m]);
    forall j | 0 <= j < |sibs| ensures Fair(sibs[j], s.picks[j].value, s.max.value) {
      FairIfJustified(sibs[j], s.picks[j].value, s.max.value);
    }
    hide Fair, Justified, CoreOk, Top;
  }

  lemma TopProper(sib: Sibling)
    requires SiblingOk(sib)
    ensures Proper(Top(sib))
  {
    TopOk(sib);
  }

  lemma FairIfJustified(sib: Sibling, p: Task, max: Task)
    requires SiblingOk(sib) && Proper(max) && (p in sib.tasks || p == sib.idle) && Justified(sib, p, max)
    ensures Fair(sib, p, max)
  {
    assert p in sib.tasks ==> TaskOk(p);
    forall t | t in sib.tasks ensures !MoreUrgent(t, p) || !MoreUrgent(t, max) {
      BelowIsUrgency(p, t);
      BelowIsUrgency(max, t);
    }
  }

  /**
   Whenever a selection has ended, no real-time task is held back by the cookie of one of
   larger prio, or of a task of a class below.
   */
  lemma RealTimeNotHeldBack(sibs: seq<Sibling>, s: Sel, j: nat, t: Task)
    requires CoreOk(sibs) && IsOutcome(sibs, s) && j < |sibs| && t in sibs[j].tasks && t.class_ == RT
    ensures AllFair(sibs, s)
    ensures var p, m := s.picks[j].value, s.max.value;
            m.class_ > RT || (m.class_ == RT && m.prio > t.prio) ==>
              p.class_ < RT || (p.class_ == RT && p.prio <= t.prio)
  {
    OutcomeServes(sibs, s);
    SelectedIsFair(sibs, s);
    assert Fair(sibs[j], s.picks[j].value, s.max.value);
    hide Selected, AllServed, IsOutcome, CoreOk;
  }

  // ---------------------------------------------------------------- in a trap it never ends

  /** Max is no earlier than the trap, and the loop does not get past b without a restart. */
  predicate Trapped(sibs: seq<Sibling>, s: Sel, a: nat, b: nat)
    requires a < b < |sibs|
  {
    var t := Top(sibs[a]);
    && s.k <= DL && (s.k == STOP ==> s.max.None?)
    && (s.k == DL ==> s.i <= b && (s.max.None? ==> s.i <= a))
    && (s.max.Some? ==>
          var m := s.max.value;
          && m.class_ == DL && m.prio == -1 && m.deadline >= t.deadline && (m.deadline == t.deadline ==> m.cookie != 0)
          && (s.i > a ==> m.cookie == t.cookie))
  }

  /** Nothing passes the trap's tasks unnoticed: once a is passed max has its cookie, and b cannot be passed. */
  lemma TrapPick(sibs: seq<Sibling>, s: Sel, a: nat, b: nat, p: Task)
    requires Trap(sibs, a, b) && Trapped(sibs, s, a, b) && s.k == DL && s.max.Some? && s.i <= b
    requires Top(sibs[a]).prio == Top(sibs[b]).prio == -1
    requires CookieMatch(s.max.value, p) && DeadlineMet(sibs[s.i], p, s.max.value)
    ensures s.i != b && (s.i == a ==> s.max.value.cookie == Top(sibs[a]).cookie)
  {
    hide Top;
  }

  lemma TrappedAdvances(sibs: seq<Sibling>, s: Sel, a: nat, b: nat)
    requires CoreOk(sibs) && Good(sibs, s) && AllDecided(sibs, s) && Trap(sibs, a, b) && Trapped(sibs, s, a, b)
    requires s.k == DL && s.max.Some? && !Restarts(sibs, s)
    ensures Trapped(sibs, Step(sibs, s), a, b)
  {
    TurnFacts(sibs, s);
    DeadlineTop(sibs, a);
    DeadlineTop(sibs, b);
    var m := s.max.value;
    if s.picks[s.i].Some? {
      assert PickOk(sibs[s.i], s.picks[s.i].value, m) && Decided(sibs[s.i], s.picks[s.i], m);
      TrapPick(sibs, s, a, b, s.picks[s.i].value);
    } else {
      ClassPickIsTop(sibs[s.i], DL);
      PickMeetsDeadline(sibs[s.i], DL, m);
      var p := PickTask(sibs[s.i], DL, s.max, s.cookie);
      if p.Some? {
        TrapPick(sibs, s, a, b, p.value);
      } else {
        NoDeadlineTop(sibs[s.i]);
      }
    }
    hide Good, AllDecided, CoreOk, PickTask, Top, Trap, PickOk, Decided;
  }

  lemma NoDeadlineTop(sib: Sibling)
    requires SiblingOk(sib) && NothingBefore(sib, DL + 1)
    ensures Top(sib).class_ != DL
  {
    TopFacts(sib, sib.idle);
  }

  lemma TrapOthers(sibs: seq<Sibling>, a: nat, b: nat, j: nat)
    requires Trap(sibs, a, b) && (j < a || (a < j < b && Top(sibs[j]).cookie != Top(sibs[a]).cookie))
    ensures Later(sibs[j], Top(sibs[a]).deadline)
  {
  }

  /** Where a restart leads. */
  lemma RestartState(sibs: seq<Sibling>, s: Sel, x: nat)
    requires Sound(sibs, s, x) && !Finished(s) && Restarts(sibs, s)
    ensures var s', m, p := Step(sibs, s), s.max.value, Top(sibs[s.i]);
            && s'.k == s.k == p.class_ && s'.i == 0 && s'.max == Some(p)
            && m.cookie != p.cookie && (p.class_ == DL ==> p.prio == -1)
            && if m.cookie == 0 then !PrioLess(p, m) else PrioLess(m, p)
  {
    RestartPick(sibs, s, x);
    DeadlineTop(sibs, s.i);
    hide Good, AllDecided, CoreOk, PickTask, Top;
  }

  lemma TrappedRestarts(sibs: seq<Sibling>, s: Sel, a: nat, b: nat, x: nat)
    requires Sound(sibs, s, x) && Trap(sibs, a, b) && Trapped(sibs, s, a, b) && s.k == DL && Restarts(sibs, s)
    ensures Trapped(sibs, Step(sibs, s), a, b)
  {
    RestartState(sibs, s, x);
    if s.i < a || a < s.i < b { TrapOthers(sibs, a, b, s.i); }
    assert s.i == a || s.i == b ==> Tied(sibs[a], sibs[b]);
    hide Sound, Restarts, Step, Top, Trap, PrioLess;
  }

  lemma TrappedBegins(sibs: seq<Sibling>, s: Sel, a: nat, b: nat)
    requires CoreOk(sibs) && Good(sibs, s) && Trap(sibs, a, b) && NoStop(sibs) && Trapped(sibs, s, a, b) && s.max.None?
    ensures Trapped(sibs, Step(sibs, s), a, b)
  {
    if s.i < |sibs| {
      TurnFacts(sibs, s);
      FirstPick(sibs[s.i], s.k);
      DeadlineTop(sibs, s.i);
      assert s.i < a ==> Later(sibs[s.i], Top(sibs[a]).deadline);
      if s.k == DL && PickTask(sibs[s.i], s.k, None, 0).None? { NoDeadlineTop(sibs[s.i]); }
    }
    hide Good, CoreOk, PickTask, Top;
  }

  lemma {:induction false} TrapHolds(sibs: seq<Sibling>, s: Sel, x: nat, a: nat, b: nat, n: nat)
    requires Sound(sibs, s, x) && Trap(sibs, a, b) && NoStop(sibs) && Trapped(sibs, s, a, b)
    ensures InStep(sibs, s) && !Finished(Iter(sibs, s, n))
    decreases n
  {
    SoundBounds(sibs, s, x);
    if n > 0 {
      if s.max.None? { TrappedBegins(sibs, s, a, b); }
      else if Restarts(sibs, s) { TrappedRestarts(sibs, s, a, b, x); }
      else { TrappedAdvances(sibs, s, a, b); }
      StepSound(sibs, s, x);
      TrapHolds(sibs, Step(sibs, s), NextMax(sibs, s, x), a, b, n - 1);
    }
    hide Good, AllDecided, CoreOk, PickTask, Top, Trap, NoStop, Step, MaxAt, Restarts;
  }

  lemma TrapNeverEnds(sibs: seq<Sibling>, n: nat)
    requires CoreOk(sibs) && Endless(sibs)
    ensures !Finished(Iter(sibs, Start(|sibs|), n))
  {
    var a, b :| 0 <= a < b < |sibs| && Trap(sibs, a, b);
    StartSound(sibs);
    TrapHolds(sibs, Start(|sibs|), 0, a, b, n);
  }

  /**
   On a core of any number of siblings the selection ends if and only if there is no trap:
   in one, prio_less holds both ways and each of the two tasks keeps displacing the other.
   */
  lemma SelectionEndsExactly(sibs: seq<Sibling>)
    requires CoreOk(sibs)
    ensures (exists n: nat :: Finished(Iter(sibs, Start(|sibs|), n))) <==> !Endless(sibs)
  {
    hide Iter, Endless, CoreOk;
    if Endless(sibs) {
      forall n: nat ensures !Finished(Iter(sibs, Start(|sibs|), n)) { TrapNeverEnds(sibs, n); }
    } else {
      var n := SelectionEnds(sibs);
    }
  }

  lemma OutcomeNotEndless(sibs: seq<Sibling>, s: Sel)
    requires CoreOk(sibs) && IsOutcome(sibs, s)
    ensures !Endless(sibs)
  {
    hide Iter, Endless, CoreOk;
    var n: nat :| Finished(Iter(sibs, Start(|sibs|), n)) && s == Iter(sibs, Start(|sibs|), n);
    if Endless(sibs) { TrapNeverEnds(sibs, n); }
  }

  /** On two siblings any tie is a trap. */
  lemma TieOfTwoIsTrap(sibs: seq<Sibling>)
    requires |sibs| == 2
    ensures Endless(sibs) <==> Tied(sibs[0], sibs[1])
  {
    assert Tied(sibs[0], sibs[1]) ==> Trap(sibs, 0, 1);
  }

  lemma TwoSiblingsEndExactly(sibs: seq<Sibling>)
    requires CoreOk(sibs) && |sibs| == 2
    ensures (exists n: nat :: Finished(Iter(sibs, Start(2), n))) <==> !Tied(sibs[0], sibs[1])
  {
    hide Iter, CoreOk, Tied, Endless, Start;
    SelectionEndsExactly(sibs);
    TieOfTwoIsTrap(sibs);
  }

  // ---------------------------------------------------------------- the earliest deadline

  /**
   Sibling x has the earliest deadline on top, no stop task is above it, and no top task with
   that deadline lacks a cookie.
   */
  predicate Earliest(sibs: seq<Sibling>, x: nat) {
    && x < |sibs| && Top(sibs[x]).class_ == DL && NoStop(sibs)
    && forall j | 0 <= j < |sibs| :: var t := Top(sibs[j]);
         Later(sibs[j], Top(sibs[x]).deadline) || (t.deadline == Top(sibs[x]).deadline && t.cookie != 0)
  }

  lemma EarliestServed(sibs: seq<Sibling>, s: Sel, x: nat, y: nat)
    requires Sound(sibs, s, y) && Finished(s) && Earliest(sibs, x)
    ensures s.cookie == Top(sibs[x]).cookie
  {
    assert s.picks[x].Some? && s.max.Some?;
    var m := s.max.value;
    assert Decided(sibs[x], s.picks[x], m) && PickOk(sibs[x], s.picks[x].value, m);
    assert NothingBefore(sibs[x], m.class_);
    TopFacts(sibs[x], sibs[x].idle);
    DeadlineTop(sibs, x);
    DeadlineTop(sibs, y);
    hide Top, TallyOk, UnpickedOk, CoreOk, Justified, Served;
  }

  /** A selection that has ended has the cookie of every such task. */
  lemma EarliestServedAtEnd(sibs: seq<Sibling>, x: nat, n: nat)
    requires CoreOk(sibs) && Earliest(sibs, x) && Finished(Iter(sibs, Start(|sibs|), n))
    ensures Iter(sibs, Start(|sibs|), n).cookie == Top(sibs[x]).cookie
  {
    StartSound(sibs);
    hide Sound, Earliest, Iter;
    var y := IterSound(sibs, Start(|sibs|), 0, n);
    EarliestServed(sibs, Iter(sibs, Start(|sibs|), n), x, y);
  }

  /** So with a tie at the core's earliest deadline it never ends, whatever the other siblings hold. */
  lemma EarliestTieNeverEnds(sibs: seq<Sibling>, a: nat, b: nat, n: nat)
    requires CoreOk(sibs) && Earliest(sibs, a) && Earliest(sibs, b) && Tied(sibs[a], sibs[b])
    ensures !Finished(Iter(sibs, Start(|sibs|), n))
  {
    hide CoreOk, Earliest, Iter;
    if Finished(Iter(sibs, Start(|sibs|), n)) {
      EarliestServedAtEnd(sibs, a, n);
      EarliestServedAtEnd(sibs, b, n);
    }
  }

  // ---------------------------------------------------------------- the code's loops

  /** The selection loops of pick_next_task, writing each sibling's core_pick. */
  method SelectCore(sibs: seq<Sibling>, corePick: array<Option<Task>>)
    returns (cookie: nat, occ: nat, forceIdle: bool, ghost sel: Sel)
    requires CoreOk(sibs) && !Endless(sibs) && corePick.Length == |sibs|
    modifies corePick
    ensures Selected(sibs, sel) && AllServed(sibs, sel) && AllFair(sibs, sel) && sel.picks == corePick[..]
    ensures sel.cookie == cookie && sel.occ == occ && sel.forceIdle == forceIdle
    ensures IsOutcome(sibs, sel)
  {
    hide Sound, Endless, Selected, AllServed, AllFair, PickTask, RestartsLeft, CookieMatch;
    var n := |sibs|;
    for j := 0 to n
      invariant forall x | 0 <= x < j :: corePick[x].None?
    {
      corePick[j] := None;
    }
    var max: Option<Task> := None;
    cookie, occ, forceIdle := 0, 0, false;
    var k: nat := 0;
    ghost var steps: nat := 0;
    assert corePick[..] == Start(n).picks;
    StartSound(sibs);
    ghost var x: nat := 0;
    while k <= IDLE
      invariant k <= IDLE + 1
      invariant Sound(sibs, Sel(k, 0, corePick[..], max, cookie, occ, forceIdle), x) && (max.Some? ==> x < n)
      invariant Sel(k, 0, corePick[..], max, cookie, occ, forceIdle) == Iter(sibs, Start(n), steps)
      decreases IDLE + 1 - k
    {
      var i: nat := 0;
      while i < n
        invariant i <= n
        invariant Sound(sibs, Sel(k, i, corePick[..], max, cookie, occ, forceIdle), x) && (max.Some? ==> x < n)
        invariant Sel(k, i, corePick[..], max, cookie, occ, forceIdle) == Iter(sibs, Start(n), steps)
        decreases RestartsLeft(sibs, Sel(k, i, corePick[..], max, cookie, occ, forceIdle), x), n - i
      {
        ghost var s := Sel(k, i, corePick[..], max, cookie, occ, forceIdle);
        StepCloser(sibs, s, x);
        x := NextMax(sibs, s, x);
        IterNext(sibs, Start(n), steps);
        steps := steps + 1;
        if corePick[i].Some? {
          i := i + 1;
          continue;
        }
        var p := PickTask(sibs[i], k, max, cookie);
        if p.None? {
          i := i + 1;
          continue;
        }
        if !IsIdle(p.value) {
          occ := occ + 1;
        }
        corePick[i] := p;
        if IsIdle(p.value) && |sibs[i].tasks| != 0 {
          forceIdle := true;
        }
        if max.None? || !CookieMatch(max.value, p.value) {
          var oldMax := max;
          cookie := p.value.cookie;
          max := p;
          if oldMax.Some? {
            forceIdle := false;
            forall j | 0 <= j < n && j != i {
              corePick[j] := None;
            }
            occ := 1;
            assert corePick[..] == Only(n, i, p.value);
            i := 0;
            continue;
          }
        }
        i := i + 1;
      }
      ghost var s := Sel(k, i, corePick[..], max, cookie, occ, forceIdle);
      StepCloser(sibs, s, x);
      x := NextMax(sibs, s, x);
      IterNext(sibs, Start(n), steps);
      steps := steps + 1;
      k := k + 1;
    }
    sel := Iter(sibs, Start(n), steps);
    SoundServes(sibs, sel, x);
    SelectedIsFair(sibs, sel);
    assert IsOutcome(sibs, sel);
  }
}
