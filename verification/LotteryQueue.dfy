/**
 The runqueue of the lottery class (kernel/sched/lottery.c): a list of tasks in arrival
 order with two cached unsigned counters, and the draw that picks the next task by a
 cumulative scan over the tickets.
 */
module LotteryQueue {
  import opened Wrappers

  type Pid = nat

  /** unsigned int is 32 bits wide. */
  const U32 := 0x1_0000_0000
  const SCHED_LOTTERY := 7

  /** What the scan reads of a task: its policy and ltr.tickets. */
  datatype Entity = Entity(policy: int, tickets: nat)

  type Entities = map<Pid, Entity>

  /** struct ltr_rq, queue first. */
  datatype Rq = Rq(queue: seq<Pid>, nrRunning: nat, totalTickets: nat)

  const EMPTY_RQ := Rq([], 0, 0)

  function Remove(q: seq<Pid>, p: Pid): seq<Pid> {
    if q == [] then [] else if q[0] == p then q[1..] else [q[0]] + Remove(q[1..], p)
  }

  function Enqueued(rq: Rq, p: Pid, tickets: nat): Rq {
    Rq(rq.queue + [p], (rq.nrRunning + 1) % U32, (rq.totalTickets + tickets) % U32)
  }

  /** The counters are decremented whether or not the list held the task. */
  function Dequeued(rq: Rq, p: Pid, tickets: nat): Rq {
    Rq(Remove(rq.queue, p), (rq.nrRunning - 1) % U32, (rq.totalTickets - tickets) % U32)
  }

  predicate NoDup(q: seq<Pid>) {
    forall i, j | 0 <= i < j < |q| :: q[i] != q[j]
  }

  predicate Known(q: seq<Pid>, ts: Entities) {
    forall p | p in q :: p in ts
  }

  predicate AllLottery(q: seq<Pid>, ts: Entities)
    requires Known(q, ts)
  {
    forall p | p in q :: ts[p].policy == SCHED_LOTTERY
  }

  function Tickets(q: seq<Pid>, ts: Entities): nat
    requires Known(q, ts)
  {
    if q == [] then 0 else ts[q[0]].tickets + Tickets(q[1..], ts)
  }

  /**
   The scan from a point where cnt tickets were passed and task is the last one looked at.
   A task of another policy is skipped but still remembered in task.
   */
  function ScanFrom(q: seq<Pid>, ts: Entities, lucky: nat, cnt: nat, task: Option<Pid>): Option<Pid>
    requires Known(q, ts)
  {
    if q == [] then task
    else
      var p := q[0];
      if ts[p].policy != SCHED_LOTTERY then ScanFrom(q[1..], ts, lucky, cnt, Some(p))
      else
        var next := (cnt + ts[p].tickets) % U32;
        if lucky < next && lucky >= cnt then Some(p)
        else ScanFrom(q[1..], ts, lucky, next, Some(p))
  }

  /** pick_next_task_lottery for one random word. */
  function Pick(rq: Rq, ts: Entities, word: nat): Option<Pid>
    requires Known(rq.queue, ts)
  {
    if rq.totalTickets == 0 || rq.queue == [] then None
    else ScanFrom(rq.queue, ts, word % rq.totalTickets, 0, None)
  }

  class LtrRq {
    var queue: seq<Pid>
    var nrRunning: nat
    var totalTickets: nat

    ghost function Value(): Rq
      reads this
    {
      Rq(queue, nrRunning, totalTickets)
    }

    /** init_ltr_rq */
    constructor ()
      ensures Value() == EMPTY_RQ
    {
      queue, nrRunning, totalTickets := [], 0, 0;
    }

    method EnqueueTask(p: Pid, tickets: nat)
      modifies this
      ensures Value() == Enqueued(old(Value()), p, tickets)
    {
      queue := queue + [p];
      nrRunning := (nrRunning + 1) % U32;
      totalTickets := (totalTickets + tickets) % U32;
    }

    method DequeueTask(p: Pid, tickets: nat)
      modifies this
      ensures Value() == Dequeued(old(Value()), p, tickets)
    {
      queue := Remove(queue, p);
      nrRunning := (nrRunning - 1) % U32;
      totalTickets := (totalTickets - tickets) % U32;
    }

    /** The word is what get_random_bytes stored in lucky_one. */
    method PickNextTask(ts: Entities, word: nat) returns (task: Option<Pid>)
      requires word < U32 && Known(queue, ts)
      ensures task == Pick(Value(), ts, word)
    {
      task := None;
      if totalTickets == 0 || queue == [] {
        return;
      }
      var lucky := word % totalTickets;
      var cnt: nat := 0;
      var pos := 0;
      while pos < |queue|
        invariant 0 <= pos <= |queue|
        invariant ScanFrom(queue[pos..], ts, lucky, cnt, task) == ScanFrom(queue, ts, lucky, 0, None)
      {
        var p := queue[pos];
        assert queue[pos..][1..] == queue[pos + 1..];
        task := Some(p);
        pos := pos + 1;
        if ts[p].policy == SCHED_LOTTERY {
          var next := (cnt + ts[p].tickets) % U32;
          if lucky < next && lucky >= cnt {
            return;
          }
          cnt := next;
        }
      }
    }
  }

  // ---------------------------------------------------------------- list and sum facts

  lemma RemoveMember(q: seq<Pid>, p: Pid, x: Pid)
    requires NoDup(q)
    ensures x in Remove(q, p) <==> x in q && x != p
  {
    hide Remove;
    if p in q {
      var i :| 0 <= i < |q| && q[i] == p;
      RemoveIsCut(q, p, i);
      assert q == q[..i] + [p] + q[i + 1..];
    } else {
      RemoveAbsent(q, p);
    }
  }

  lemma RemoveNoDup(q: seq<Pid>, p: Pid)
    requires NoDup(q)
    ensures NoDup(Remove(q, p)) && |Remove(q, p)| == if p in q then |q| - 1 else |q|
  {
    hide Remove;
    if p in q {
      var i :| 0 <= i < |q| && q[i] == p;
      RemoveIsCut(q, p, i);
      var r := Remove(q, p);
      forall j, k | 0 <= j < k < |r| ensures r[j] != r[k] {
        assert r[j] == q[if j < i then j else j + 1] && r[k] == q[if k < i then k else k + 1];
      }
    } else {
      RemoveAbsent(q, p);
    }
  }

  lemma {:induction false} RemoveIsCut(q: seq<Pid>, p: Pid, i: nat)
    requires NoDup(q) && i < |q| && q[i] == p
    ensures Remove(q, p) == q[..i] + q[i + 1..]
  {
    if i > 0 {
      RemoveIsCut(q[1..], p, i - 1);
      assert q[..i] == [q[0]] + q[1..][..i - 1];
      assert q[1..][i - 1 + 1..] == q[i + 1..];
    }
  }

  lemma {:induction false} RemoveAbsent(q: seq<Pid>, p: Pid)
    requires p !in q
    ensures Remove(q, p) == q
  {
    if q != [] { RemoveAbsent(q[1..], p); }
  }

  lemma {:induction false} RemoveTickets(q: seq<Pid>, p: Pid, ts: Entities)
    requires Known(q, ts)
    ensures Known(Remove(q, p), ts)
    ensures p in q ==> Tickets(Remove(q, p), ts) == Tickets(q, ts) - ts[p].tickets
  {
    if q != [] && q[0] != p {
      RemoveTickets(q[1..], p, ts);
      assert ([q[0]] + Remove(q[1..], p))[1..] == Remove(q[1..], p);
    }
  }

  lemma {:induction false} TicketsAppend(a: seq<Pid>, b: seq<Pid>, ts: Entities)
    requires Known(a, ts) && Known(b, ts)
    ensures Known(a + b, ts) && Tickets(a + b, ts) == Tickets(a, ts) + Tickets(b, ts)
  {
    if a == [] {
      assert a + b == b;
    } else {
      assert (a + b)[1..] == a[1..] + b;
      TicketsAppend(a[1..], b, ts);
    }
  }

  lemma {:induction false} TicketsFrame(q: seq<Pid>, ts: Entities, us: Entities)
    requires Known(q, ts) && Known(q, us)
    requires forall p | p in q :: ts[p].tickets == us[p].tickets
    ensures Tickets(q, ts) == Tickets(q, us)
  {
    if q != [] { TicketsFrame(q[1..], ts, us); }
  }

  lemma TicketsPrefix(q: seq<Pid>, ts: Entities, i: nat)
    requires Known(q, ts) && i < |q|
    ensures Known(q[..i], ts) && Known(q[i + 1..], ts)
    ensures Tickets(q, ts) == Tickets(q[..i], ts) + ts[q[i]].tickets + Tickets(q[i + 1..], ts)
  {
    assert q == q[..i] + q[i..];
    TicketsAppend(q[..i], q[i..], ts);
  }

  // ---------------------------------------------------------------- counters that agree with the list

  /** nr_running is the list's length and total_tickets its ticket sum, as far as 32 bits go. */
  predicate CountersOk(rq: Rq, ts: Entities) {
    && NoDup(rq.queue) && Known(rq.queue, ts)
    && rq.nrRunning == |rq.queue| % U32
    && rq.totalTickets == Tickets(rq.queue, ts) % U32
  }

  lemma WrapAdd(a: nat, b: nat)
    ensures (a % U32 + b) % U32 == (a + b) % U32
  {
  }

  lemma WrapSub(a: nat, b: nat)
    requires b <= a
    ensures (a % U32 - b) % U32 == (a - b) % U32
  {
  }

  lemma DequeuedCounters(rq: Rq, p: Pid, ts: Entities)
    requires CountersOk(rq, ts) && p in rq.queue
    ensures CountersOk(Dequeued(rq, p, ts[p].tickets), ts)
  {
    RemoveNoDup(rq.queue, p);
    RemoveTickets(rq.queue, p, ts);
    WrapSub(|rq.queue|, 1);
    WrapSub(Tickets(rq.queue, ts), ts[p].tickets);
  }

  lemma EnqueuedCounters(rq: Rq, p: Pid, ts: Entities)
    requires CountersOk(rq, ts) && p !in rq.queue && p in ts
    ensures CountersOk(Enqueued(rq, p, ts[p].tickets), ts)
  {
    TicketsAppend(rq.queue, [p], ts);
    WrapAdd(|rq.queue|, 1);
    WrapAdd(Tickets(rq.queue, ts), ts[p].tickets);
  }

  lemma CountersFrame(rq: Rq, ts: Entities, us: Entities)
    requires CountersOk(rq, ts)
    requires forall p | p in rq.queue :: p in us && ts[p].tickets == us[p].tickets
    ensures CountersOk(rq, us)
  {
    TicketsFrame(rq.queue, ts, us);
  }

  // ---------------------------------------------------------------- who owns a ticket

  /** The i-th task owns ticket number lucky: the tickets are numbered in queue order. */
  predicate Owns(q: seq<Pid>, ts: Entities, i: nat, lucky: nat)
    requires Known(q, ts) && i < |q|
  {
    Tickets(q[..i], ts) <= lucky < Tickets(q[..i], ts) + ts[q[i]].tickets
  }

  lemma OwnsShift(q: seq<Pid>, ts: Entities, j: nat, lucky: nat)
    requires Known(q, ts) && q != [] && j < |q[1..]| && Owns(q[1..], ts, j, lucky)
    ensures Owns(q, ts, j + 1, lucky + ts[q[0]].tickets)
  {
    assert q[..j + 1][1..] == q[1..][..j];
  }

  lemma {:induction false} ScanFindsOwner(q: seq<Pid>, ts: Entities, lucky: nat, cnt: nat, task: Option<Pid>)
      returns (i: nat)
    requires Known(q, ts) && AllLottery(q, ts)
    requires cnt <= lucky < cnt + Tickets(q, ts) < U32
    ensures i < |q| && Owns(q, ts, i, lucky - cnt)
    ensures ScanFrom(q, ts, lucky, cnt, task) == Some(q[i])
  {
    var next := cnt + ts[q[0]].tickets;
    assert next % U32 == next;
    if lucky < next {
      i := 0;
    } else {
      var j := ScanFindsOwner(q[1..], ts, lucky, next, Some(q[0]));
      i := j + 1;
      OwnsShift(q, ts, j, lucky - next);
      hide Owns;
    }
  }

  lemma OwnerUnique(q: seq<Pid>, ts: Entities, i: nat, j: nat, lucky: nat)
    requires Known(q, ts) && i < |q| && j < |q| && Owns(q, ts, i, lucky) && Owns(q, ts, j, lucky)
    ensures i == j
  {
    if i < j { PrefixGrows(q, ts, i, j); } else if j < i { PrefixGrows(q, ts, j, i); }
  }

  lemma PrefixGrows(q: seq<Pid>, ts: Entities, i: nat, j: nat)
    requires Known(q, ts) && i < j <= |q|
    ensures Tickets(q[..i], ts) + ts[q[i]].tickets <= Tickets(q[..j], ts)
  {
    TicketsPrefix(q[..j], ts, i);
    assert q[..j][..i] == q[..i];
  }

  /** With a ticket sum below 2^32 the scan stops at the one owner of the drawn ticket. */
  lemma ScanStopsAtOwner(q: seq<Pid>, ts: Entities, lucky: nat, i: nat)
    requires Known(q, ts) && AllLottery(q, ts) && Tickets(q, ts) < U32 && lucky < Tickets(q, ts)
    requires i < |q| && NoDup(q)
    ensures Owns(q, ts, i, lucky) <==> ScanFrom(q, ts, lucky, 0, None) == Some(q[i])
  {
    var j := ScanFindsOwner(q, ts, lucky, 0, None);
    if Owns(q, ts, i, lucky) { OwnerUnique(q, ts, i, j, lucky); }
  }

  /** Whatever overflows, a non-empty list always yields one of its tasks. */
  lemma {:induction false} ScanInQueue(q: seq<Pid>, ts: Entities, lucky: nat, cnt: nat, task: Option<Pid>)
    requires Known(q, ts) && q != []
    ensures var r := ScanFrom(q, ts, lucky, cnt, task); r.Some? && r.value in q
  {
    if |q| > 1 {
      ScanInQueue(q[1..], ts, lucky, cnt, Some(q[0]));
      ScanInQueue(q[1..], ts, lucky, (cnt + ts[q[0]].tickets) % U32, Some(q[0]));
    }
  }

  // ---------------------------------------------------------------- counting draws

  /** Of the draws 0..n, how many make task p win. */
  function Wins(q: seq<Pid>, ts: Entities, p: Pid, n: nat): nat
    requires Known(q, ts)
  {
    if n == 0 then 0
    else Wins(q, ts, p, n - 1) + (if ScanFrom(q, ts, n - 1, 0, None) == Some(p) then 1 else 0)
  }

  function Clip(x: int, hi: nat): nat {
    if x < 0 then 0 else if x < hi then x else hi
  }

  /** Exactly those of the first n tickets that task i owns. */
  lemma {:induction false} WinsExact(q: seq<Pid>, ts: Entities, i: nat, n: nat)
    requires Known(q, ts) && AllLottery(q, ts) && NoDup(q) && i < |q|
    requires n <= Tickets(q, ts) < U32
    ensures Wins(q, ts, q[i], n) == Clip(n - Tickets(q[..i], ts), ts[q[i]].tickets)
  {
    if n > 0 {
      WinsExact(q, ts, i, n - 1);
      ScanStopsAtOwner(q, ts, n - 1, i);
    }
  }

  /** Over one round of draws each task wins exactly its ticket count. */
  lemma ExactShare(q: seq<Pid>, ts: Entities, i: nat)
    requires Known(q, ts) && AllLottery(q, ts) && NoDup(q) && i < |q| && Tickets(q, ts) < U32
    ensures Wins(q, ts, q[i], Tickets(q, ts)) == ts[q[i]].tickets
  {
    WinsExact(q, ts, i, Tickets(q, ts));
    TicketsPrefix(q, ts, i);
  }

  /** Summed over the first m tasks of the queue. */
  function TotalWins(q: seq<Pid>, ts: Entities, m: nat, n: nat): nat
    requires Known(q, ts) && m <= |q|
  {
    if m == 0 then 0 else TotalWins(q, ts, m - 1, n) + Wins(q, ts, q[m - 1], n)
  }

  lemma {:induction false} OneMoreDraw(q: seq<Pid>, ts: Entities, m: nat, n: nat)
    requires Known(q, ts) && NoDup(q) && m <= |q|
    ensures TotalWins(q, ts, m, n + 1) == TotalWins(q, ts, m, n) +
            (if exists i | 0 <= i < m :: ScanFrom(q, ts, n, 0, None) == Some(q[i]) then 1 else 0)
  {
    if m > 0 { OneMoreDraw(q, ts, m - 1, n); }
  }

  lemma {:induction false} NoDraws(q: seq<Pid>, ts: Entities, m: nat)
    requires Known(q, ts) && m <= |q|
    ensures TotalWins(q, ts, m, 0) == 0
  {
    if m > 0 { NoDraws(q, ts, m - 1); }
  }

  /** Every draw has exactly one winner, overflow or not. */
  lemma {:induction false} DrawsAreShared(q: seq<Pid>, ts: Entities, n: nat)
    requires Known(q, ts) && NoDup(q) && q != []
    ensures TotalWins(q, ts, |q|, n) == n
  {
    if n == 0 {
      NoDraws(q, ts, |q|);
    } else {
      DrawsAreShared(q, ts, n - 1);
      OneMoreDraw(q, ts, |q|, n - 1);
      ScanInQueue(q, ts, n - 1, 0, None);
    }
  }

  lemma {:induction false} SharesSum(q: seq<Pid>, ts: Entities, m: nat, n: nat)
    requires Known(q, ts) && m <= |q|
    requires forall i | 0 <= i < |q| :: Wins(q, ts, q[i], n) == ts[q[i]].tickets
    ensures TotalWins(q, ts, m, n) == Tickets(q[..m], ts)
  {
    if m > 0 {
      SharesSum(q, ts, m - 1, n);
      assert q[..m] == q[..m - 1] + [q[m - 1]];
      TicketsAppend(q[..m - 1], [q[m - 1]], ts);
    }
  }

  /**
   The lottery is fair exactly when the ticket sum fits the unsigned counter: with the
   counter holding the sum modulo 2^32, every task wins its ticket count over one round of
   draws if and only if nothing wrapped.
   */
  lemma FairExactlyBelowWrap(q: seq<Pid>, ts: Entities, total: nat)
    requires Known(q, ts) && AllLottery(q, ts) && NoDup(q) && q != []
    requires total == Tickets(q, ts) % U32
    ensures (forall i | 0 <= i < |q| :: Wins(q, ts, q[i], total) == ts[q[i]].tickets) <==> Tickets(q, ts) < U32
  {
    if Tickets(q, ts) < U32 {
      forall i | 0 <= i < |q| ensures Wins(q, ts, q[i], total) == ts[q[i]].tickets { ExactShare(q, ts, i); }
    }
    if forall i | 0 <= i < |q| :: Wins(q, ts, q[i], total) == ts[q[i]].tickets {
      DrawsAreShared(q, ts, total);
      SharesSum(q, ts, |q|, total);
      assert q[..|q|] == q && Tickets(q, ts) == total;
    }
  }

  // ---------------------------------------------------------------- counting random words

  /** Of the random words 0..n, how many make pick_next_task_lottery return p. */
  function WordWins(rq: Rq, ts: Entities, p: Pid, n: nat): nat
    requires Known(rq.queue, ts)
  {
    if n == 0 then 0
    else WordWins(rq, ts, p, n - 1) + (if Pick(rq, ts, n - 1) == Some(p) then 1 else 0)
  }

  lemma Distribute(d: int, a: int, b: int)
    ensures d * (a + b) == d * a + d * b
  {
  }

  lemma ScaleGrows(k: int, t: nat)
    ensures (k >= 1 ==> k * t >= t) && (k <= -1 ==> k * t + t <= 0)
  {
  }

  lemma RemainderUnique(t: nat, e: int, m: nat, d: int, r: nat)
    requires e * t + m == d * t + r && m < t && r < t
    ensures m == r
  {
    var k := e - d;
    assert k * t == r - m;
    ScaleGrows(k, t);
  }

  lemma ModOf(d: nat, t: nat, r: nat)
    requires r < t
    ensures (d * t + r) % t == r
  {
    var n := d * t + r;
    var e, m := n / t, n % t;
    assert n == t * e + m;
    RemainderUnique(t, e, m, d, r);
  }

  /** d full rounds of draws and a partial one of r. */
  lemma {:induction false} WordsAreRounds(rq: Rq, ts: Entities, p: Pid, d: nat, r: nat)
    requires Known(rq.queue, ts) && rq.totalTickets > 0 && rq.queue != [] && r <= rq.totalTickets
    ensures var t := rq.totalTickets;
            WordWins(rq, ts, p, d * t + r) == d * Wins(rq.queue, ts, p, t) + Wins(rq.queue, ts, p, r)
    decreases d, r
  {
    var t := rq.totalTickets;
    if r > 0 {
      WordsAreRounds(rq, ts, p, d, r - 1);
      ModOf(d, t, r - 1);
    } else if d > 0 {
      WordsAreRounds(rq, ts, p, d - 1, t);
      assert (d - 1) * t + t == d * t;
      var w := Wins(rq.queue, ts, p, t);
      assert (d - 1) * w + w == d * w;
    }
  }

  /** A queue whose counters agree with its list, all of it lottery tasks. */
  predicate Consistent(rq: Rq, ts: Entities) {
    CountersOk(rq, ts) && AllLottery(rq.queue, ts)
  }

  lemma ShareBounds(d: nat, k: nat, c: nat)
    requires c <= k
    ensures k * d <= d * k + c <= k * (d + 1)
  {
    Distribute(k, d, 1);
  }

  /**
   Over all 2^32 random words task i with k tickets wins k times floor(2^32 / T) words, plus
   its tickets among the first 2^32 mod T; so between k * floor and k * (floor + 1) words.
   */
  lemma WordShare(rq: Rq, ts: Entities, i: nat)
    requires Consistent(rq, ts) && 0 < Tickets(rq.queue, ts) < U32 && i < |rq.queue|
    ensures var t, k := rq.totalTickets, ts[rq.queue[i]].tickets;
            && WordWins(rq, ts, rq.queue[i], U32)
               == (U32 / t) * k + Clip(U32 % t - Tickets(rq.queue[..i], ts), k)
            && k * (U32 / t) <= WordWins(rq, ts, rq.queue[i], U32) <= k * (U32 / t + 1)
  {
    var q, t, k := rq.queue, rq.totalTickets, ts[rq.queue[i]].tickets;
    assert t == Tickets(q, ts);
    var d, r := U32 / t, U32 % t;
    assert U32 == d * t + r;
    WordsAreRounds(rq, ts, q[i], d, r);
    ExactShare(q, ts, i);
    WinsExact(q, ts, i, r);
    ShareBounds(d, k, Clip(r - Tickets(q[..i], ts), k));
    hide Wins, WordWins, Tickets, Clip, Consistent;
  }

  function TotalWordWins(rq: Rq, ts: Entities, m: nat, n: nat): nat
    requires Known(rq.queue, ts) && m <= |rq.queue|
  {
    if m == 0 then 0 else TotalWordWins(rq, ts, m - 1, n) + WordWins(rq, ts, rq.queue[m - 1], n)
  }

  lemma {:induction false} TotalWordsAreRounds(rq: Rq, ts: Entities, m: nat, d: nat, r: nat)
    requires Known(rq.queue, ts) && rq.totalTickets > 0 && rq.queue != [] && m <= |rq.queue|
    requires r <= rq.totalTickets
    ensures var t := rq.totalTickets;
            TotalWordWins(rq, ts, m, d * t + r) == d * TotalWins(rq.queue, ts, m, t) + TotalWins(rq.queue, ts, m, r)
  {
    if m > 0 {
      var t := rq.totalTickets;
      TotalWordsAreRounds(rq, ts, m - 1, d, r);
      WordsAreRounds(rq, ts, rq.queue[m - 1], d, r);
      var a, b := TotalWins(rq.queue, ts, m - 1, t), Wins(rq.queue, ts, rq.queue[m - 1], t);
      Distribute(d, a, b);
    }
  }

  /** Each of the 2^32 words has exactly one winner. */
  lemma WordsAreShared(rq: Rq, ts: Entities)
    requires Known(rq.queue, ts) && NoDup(rq.queue) && rq.queue != [] && rq.totalTickets > 0
    ensures TotalWordWins(rq, ts, |rq.queue|, U32) == U32
  {
    var t := rq.totalTickets;
    var d, r := U32 / t, U32 % t;
    assert U32 == d * t + r;
    TotalWordsAreRounds(rq, ts, |rq.queue|, d, r);
    DrawsAreShared(rq.queue, ts, t);
    DrawsAreShared(rq.queue, ts, r);
  }

  // ---------------------------------------------------------------- who a word picks

  lemma Remainder(word: nat, total: nat) returns (lucky: nat)
    requires total > 0
    ensures lucky == word % total && lucky < total
  {
    lucky := word % total;
  }

  /** A random word picks the owner of its remainder by the ticket sum. */
  lemma PickIsOwner(rq: Rq, ts: Entities, word: nat, i: nat)
    requires Consistent(rq, ts) && 0 < Tickets(rq.queue, ts) < U32 && i < |rq.queue|
    ensures Pick(rq, ts, word) == Some(rq.queue[i]) <==> Owns(rq.queue, ts, i, word % Tickets(rq.queue, ts))
  {
    hide ScanFrom, Owns, Tickets;
    var total := Tickets(rq.queue, ts);
    assert rq.totalTickets == total;
    var lucky := Remainder(word, total);
    ScanStopsAtOwner(rq.queue, ts, lucky, i);
  }

  /** Nobody is picked only from an empty list or when the counter shows no tickets. */
  lemma PickNobody(rq: Rq, ts: Entities, word: nat)
    requires Known(rq.queue, ts)
    ensures Pick(rq, ts, word).None? <==> rq.queue == [] || rq.totalTickets == 0
  {
    if rq.queue != [] && rq.totalTickets != 0 {
      ScanInQueue(rq.queue, ts, word % rq.totalTickets, 0, None);
    }
    hide ScanFrom;
  }

  /** A task that joins gets the tickets after all others, which keep their numbers. */
  lemma JoinsBehind(rq: Rq, ts: Entities, p: Pid, i: nat, lucky: nat)
    requires Known(rq.queue, ts) && p in ts && i <= |rq.queue|
    ensures var q := Enqueued(rq, p, ts[p].tickets).queue;
            && Known(q, ts) && |q| == |rq.queue| + 1
            && (Owns(q, ts, i, lucky) <==>
                if i < |rq.queue| then Owns(rq.queue, ts, i, lucky)
                else Tickets(rq.queue, ts) <= lucky < Tickets(rq.queue, ts) + ts[p].tickets)
  {
    var q := rq.queue + [p];
    assert q[..i] == rq.queue[..i];
    assert rq.queue[..|rq.queue|] == rq.queue;
  }

  lemma OneTicket(p: Pid, ts: Entities)
    requires p in ts
    ensures Tickets([p], ts) == ts[p].tickets
  {
  }

  /** When a task leaves, those before it keep their tickets and those behind it move up. */
  lemma LeavesGap(rq: Rq, ts: Entities, k: nat, i: nat, lucky: nat)
    requires Known(rq.queue, ts) && NoDup(rq.queue) && k < |rq.queue| && i < |rq.queue| && i != k
    ensures var t := ts[rq.queue[k]].tickets;
            var q := Dequeued(rq, rq.queue[k], t).queue;
            && Known(q, ts) && |q| == |rq.queue| - 1
            && if i < k then Owns(rq.queue, ts, i, lucky) <==> Owns(q, ts, i, lucky)
               else Owns(rq.queue, ts, i, lucky + t) <==> Owns(q, ts, i - 1, lucky)
  {
    hide Remove;
    var q := rq.queue;
    RemoveIsCut(q, q[k], k);
    var r := q[..k] + q[k + 1..];
    OneTicket(q[k], ts);
    hide Tickets;
    if i < k {
      assert r[..i] == q[..i];
    } else {
      assert r[..i - 1] == q[..k] + q[k + 1..i] && q[..i] == q[..k] + [q[k]] + q[k + 1..i];
      TicketsAppend(q[..k], q[k + 1..i], ts);
      TicketsAppend(q[..k], [q[k]], ts);
      TicketsAppend(q[..k] + [q[k]], q[k + 1..i], ts);
    }
  }
}
