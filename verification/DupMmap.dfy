/**
 dup_mmap (kernel/fork.c): give a forked process a copy of its parent's list of memory areas.
 The copy is linked through a pointer to the place where the next area belongs, and whatever
 was taken for an area that cannot be linked has to be given back.

 What the calls into other code answer (memory allocation, the security module, page-table
 copying, and so on) is a parameter, one Luck per area of the parent.
 */
module DupMmap {
  import opened Errno

  datatype Flags = Flags(dontCopy: bool, account: bool, wipeOnFork: bool, locked: bool, lockOnFault: bool)

  /** What an area says, apart from its links. policy and file: whether it has one. */
  datatype Area = Area(start: nat, pages: nat, flags: Flags, policy: bool, file: bool)

  /** signal: a fatal signal is pending. The numbers are return values, 0 for success. */
  datatype Luck = Luck(signal: bool, enoughMemory: bool, duplicated: bool, policy: int, userfault: int, anonVma: int,
      copyPages: int)

  /** Before the loop and after it: the lock on the parent, ksm_fork, khugepaged_fork, arch_dup_mmap. */
  datatype Setup = Setup(killed: bool, ksm: int, khugepaged: int, arch: int)

  // ---------------------------------------------------------------- what is to be linked

  /** A copied area has its locks dropped. */
  function Copy(a: Area): Area {
    a.(flags := a.flags.(locked := false, lockOnFault := false))
  }

  /** The error that stops the copying before area a is linked, or 0. */
  function FailsBefore(a: Area, l: Luck): int {
    if l.signal then -EINTR
    else if a.flags.account && !l.enoughMemory then -ENOMEM
    else if !l.duplicated || l.policy != 0 || l.userfault != 0 then -ENOMEM
    else if !a.flags.wipeOnFork && l.anonVma != 0 then -ENOMEM
    else 0
  }

  /** The areas linked from position k on, and the result. */
  function Plan(areas: seq<Area>, luck: seq<Luck>, arch: int, k: nat): (seq<Area>, int)
    requires |luck| == |areas| && k <= |areas|
    decreases |areas| - k
  {
    if k == |areas| then ([], arch)
    else if areas[k].flags.dontCopy then Plan(areas, luck, arch, k + 1)
    else if FailsBefore(areas[k], luck[k]) != 0 then ([], FailsBefore(areas[k], luck[k]))
    else if !areas[k].flags.wipeOnFork && luck[k].copyPages != 0 then ([Copy(areas[k])], luck[k].copyPages)
    else
      var (rest, ret) := Plan(areas, luck, arch, k + 1);
      ([Copy(areas[k])] + rest, ret)
  }

  function Outcome(areas: seq<Area>, luck: seq<Luck>, setup: Setup): (seq<Area>, int)
    requires |luck| == |areas|
  {
    if setup.killed then ([], -EINTR)
    else if setup.ksm != 0 then ([], setup.ksm)
    else if setup.khugepaged != 0 then ([], setup.khugepaged)
    else Plan(areas, luck, setup.arch, 0)
  }

  /** The copies of all areas that may be copied. */
  function Copies(areas: seq<Area>): seq<Area> {
    if areas == [] then []
    else (if areas[0].flags.dontCopy then [] else [Copy(areas[0])]) + Copies(areas[1..])
  }

  /** What is linked is the copy of a prefix of the parent's list; on success, of all of it. */
  lemma {:induction false} PlanIsPrefix(areas: seq<Area>, luck: seq<Luck>, arch: int, k: nat) returns (n: nat)
    requires |luck| == |areas| && k <= |areas|
    ensures k <= n <= |areas| && Plan(areas, luck, arch, k).0 == Copies(areas[k..n])
    ensures Plan(areas, luck, arch, k).1 == 0 ==> n == |areas|
    decreases |areas| - k
  {
    n := k;
    if k < |areas| {
      var a := areas[k];
      if a.flags.dontCopy || (FailsBefore(a, luck[k]) == 0 && (a.flags.wipeOnFork || luck[k].copyPages == 0)) {
        n := PlanIsPrefix(areas, luck, arch, k + 1);
        assert areas[k..n][1..] == areas[k + 1..n];
      } else if FailsBefore(a, luck[k]) == 0 {
        n := k + 1;
        assert areas[k..n] == [a];
        assert Copies([a][1..]) == [];
      }
    }
  }

  /** A copy is its original without the locks. */
  predicate IsCopy(c: Area, a: Area) {
    && c.start == a.start && c.pages == a.pages && c.policy == a.policy && c.file == a.file
    && c.flags.account == a.flags.account && c.flags.wipeOnFork == a.flags.wipeOnFork
    && c.flags.dontCopy == a.flags.dontCopy && !c.flags.locked && !c.flags.lockOnFault
  }

  /** Where the copy of the k-th area stands: behind those of the areas before it. */
  lemma {:induction false} CopiesInOrder(areas: seq<Area>, k: nat)
    requires k < |areas| && !areas[k].flags.dontCopy
    ensures |Copies(areas[..k])| < |Copies(areas)| && IsCopy(Copies(areas)[|Copies(areas[..k])|], areas[k])
  {
    if k > 0 {
      CopiesInOrder(areas[1..], k - 1);
      assert areas[..k][1..] == areas[1..][..k - 1];
    } else {
      assert areas[..0] == [];
    }
  }

  /** And there is nothing else: as many copies as areas that may be copied. */
  lemma {:induction false} CopiesCount(areas: seq<Area>)
    ensures |Copies(areas)| == |set k | 0 <= k < |areas| && !areas[k].flags.dontCopy|
  {
    var kept := set k | 0 <= k < |areas| && !areas[k].flags.dontCopy;
    if areas != [] {
      var l := |areas| - 1;
      var before := set k | 0 <= k < l && !areas[..l][k].flags.dontCopy;
      CopiesCount(areas[..l]);
      CopiesAppend(areas[..l], areas[l]);
      assert areas[..l] + [areas[l]] == areas;
      assert kept == before + if areas[l].flags.dontCopy then {} else {l};
    }
  }

  /** Everything the copying of area a asks for is granted. */
  predicate Granted(a: Area, l: Luck) {
    && !l.signal && (a.flags.account ==> l.enoughMemory) && l.duplicated && l.policy == 0 && l.userfault == 0
    && (!a.flags.wipeOnFork ==> l.anonVma == 0 && l.copyPages == 0)
  }

  /** What stops the copying of area a is a lack of something. */
  predicate Lacks(a: Area, l: Luck) {
    || (a.flags.account && !l.enoughMemory) || !l.duplicated || l.policy != 0 || l.userfault != 0
    || (!a.flags.wipeOnFork && l.anonVma != 0)
  }

  /** The error of an area that is not granted everything: the signal's, -ENOMEM, or that of copying its pages. */
  predicate ErrorOf(a: Area, l: Luck, ret: int) {
    if l.signal then ret == -EINTR
    else if Lacks(a, l) then ret == -ENOMEM
    else ret == l.copyPages != 0
  }

  predicate PassesAt(areas: seq<Area>, luck: seq<Luck>, j: nat)
    requires |luck| == |areas| && j < |areas|
  {
    areas[j].flags.dontCopy || Granted(areas[j], luck[j])
  }

  lemma PlanTurn(areas: seq<Area>, luck: seq<Luck>, arch: int, k: nat)
    requires |luck| == |areas| && k < |areas|
    ensures if PassesAt(areas, luck, k) then Plan(areas, luck, arch, k).1 == Plan(areas, luck, arch, k + 1).1
            else ErrorOf(areas[k], luck[k], Plan(areas, luck, arch, k).1)
  {
  }

  /**
   The copying goes on to the first area that is not granted everything it asks for, and
   fails with that one's error; if there is none it ends with what comes after the loop.
   */
  lemma {:induction false} FirstFailure(areas: seq<Area>, luck: seq<Luck>, arch: int, k: nat) returns (f: nat)
    requires |luck| == |areas| && k <= |areas|
    ensures k <= f <= |areas| && (forall j | k <= j < f :: PassesAt(areas, luck, j))
    ensures if f == |areas| then Plan(areas, luck, arch, k).1 == arch
            else !PassesAt(areas, luck, f) && ErrorOf(areas[f], luck[f], Plan(areas, luck, arch, k).1)
    decreases |areas| - k
  {
    hide PassesAt, ErrorOf, Plan;
    f := k;
    if k == |areas| {
      PlanEnd(areas, luck, arch);
    } else {
      PlanTurn(areas, luck, arch, k);
      if PassesAt(areas, luck, k) { f := FirstFailure(areas, luck, arch, k + 1); }
    }
  }

  /** dup_mmap succeeds exactly if nothing stands in its way. */
  lemma SuccessExactly(areas: seq<Area>, luck: seq<Luck>, setup: Setup)
    requires |luck| == |areas|
    ensures Outcome(areas, luck, setup).1 == 0 <==>
              && !setup.killed && setup.ksm == 0 && setup.khugepaged == 0 && setup.arch == 0
              && forall j | 0 <= j < |areas| :: areas[j].flags.dontCopy || Granted(areas[j], luck[j])
  {
    var f := FirstFailure(areas, luck, setup.arch, 0);
    assert forall j | 0 <= j < |areas| ::
             PassesAt(areas, luck, j) <==> areas[j].flags.dontCopy || Granted(areas[j], luck[j]);
    hide Plan;
  }

  // ---------------------------------------------------------------- sums over areas

  function Total(areas: seq<Area>, f: Area -> int): int {
    if areas == [] then 0 else Total(areas[..|areas| - 1], f) + f(areas[|areas| - 1])
  }

  lemma TotalAppend(areas: seq<Area>, a: Area, f: Area -> int)
    ensures Total(areas + [a], f) == Total(areas, f) + f(a)
  {
    assert (areas + [a])[..|areas|] == areas;
  }

  function AccountedPages(): Area -> int {
    (a: Area) => if a.flags.account then a.pages else 0
  }

  function SkippedPages(): Area -> int {
    (a: Area) => if a.flags.dontCopy then a.pages else 0
  }

  function AllPages(): Area -> int {
    (a: Area) => a.pages
  }

  function Policies(): Area -> int {
    (a: Area) => if a.policy then 1 else 0
  }

  function Files(): Area -> int {
    (a: Area) => if a.file then 1 else 0
  }

  /** Copies, taken from the other end. */
  lemma {:induction false} CopiesAppend(areas: seq<Area>, a: Area)
    ensures Copies(areas + [a]) == Copies(areas) + if a.flags.dontCopy then [] else [Copy(a)]
  {
    var all := areas + [a];
    if areas == [] {
      assert all == [a] && Copies([a][1..]) == [];
    } else {
      CopiesAppend(areas[1..], a);
      assert all[1..] == areas[1..] + [a] && all[0] == areas[0];
      var first := if areas[0].flags.dontCopy then [] else [Copy(areas[0])];
      var last := if a.flags.dontCopy then [] else [Copy(a)];
      assert Copies(all) == first + (Copies(areas[1..]) + last) == (first + Copies(areas[1..])) + last;
    }
  }

  /** Skipped and copied pages together are all pages. */
  lemma {:induction false} PagesSplit(areas: seq<Area>)
    ensures Total(Copies(areas), AllPages()) == Total(areas, AllPages()) - Total(areas, SkippedPages())
  {
    if areas != [] {
      var l := |areas| - 1;
      PagesSplit(areas[..l]);
      assert areas[..l] + [areas[l]] == areas;
      CopiesAppend(areas[..l], areas[l]);
      TotalAppend(Copies(areas[..l]), Copy(areas[l]), AllPages());
      assert areas[l].flags.dontCopy ==> Copies(areas) == Copies(areas[..l]);
    }
  }

  // ---------------------------------------------------------------- the linked lists

  class Mm {
    var mmap: Vma?
    var mapCount: int
    var totalVm: int

    constructor ()
      ensures mmap == null && mapCount == 0
    {
      mmap, mapCount := null, 0;
    }
  }

  class Vma {
    var area: Area
    var mm: Mm
    var next: Vma?
    var prev: Vma?

    /** vm_area_dup */
    constructor Dup(orig: Vma)
      ensures area == orig.area && mm == orig.mm && next == null && prev == null
    {
      area, mm, next, prev := orig.area, orig.mm, null, null;
    }
  }

  /** Resources taken and given back by the copying. */
  class Ledger {
    var committed: int   // pages charged against the memory limit
    var vmas: int        // areas allocated
    var policies: int    // policies duplicated
    var files: int       // references to mapped files

    ghost function Reads(): Balance
      reads this
    {
      Balance(committed, vmas, policies, files)
    }
  }

  function At(vs: seq<Vma>, i: int): Vma? {
    if 0 <= i < |vs| then vs[i] else null
  }

  /** vs is the list of an address space: next leads through it, and prev leads back. */
  ghost predicate Linked(mm: Mm, vs: seq<Vma>)
    reads mm`mmap, vs`next, vs`prev, vs`mm
  {
    && (if vs == [] then mm.mmap == null else mm.mmap == vs[0] && vs[0].prev == null && vs[|vs| - 1].next == null)
    && (forall i | 0 < i < |vs| :: vs[i - 1].next == vs[i] && vs[i].prev == vs[i - 1])
    && (forall i | 0 <= i < |vs| :: vs[i].mm == mm)
    && forall i, j | 0 <= i < j < |vs| :: vs[i] != vs[j]
  }

  ghost function Areas(vs: seq<Vma>): seq<Area>
    reads vs
  {
    seq(|vs|, i requires 0 <= i < |vs| reads vs => vs[i].area)
  }

  /** Where the next area's address is to be written: what the code's pprev points at. */
  datatype Slot = Head | NextOf(vma: Vma)

  datatype Balance = Balance(committed: int, vmas: int, policies: int, files: int)

  /** What the ledger reads once the given areas are linked, starting from b. */
  function Needs(b: Balance, areas: seq<Area>): Balance {
    Balance(b.committed + Total(areas, AccountedPages()), b.vmas + |areas|,
            b.policies + Total(areas, Policies()), b.files + Total(areas, Files()))
  }

  lemma NeedsGrow(b: Balance, areas: seq<Area>, a: Area)
    ensures var n := Needs(b, areas);
            Needs(b, areas + [a]) == Balance(n.committed + (if a.flags.account then a.pages else 0), n.vmas + 1,
                                             n.policies + (if a.policy then 1 else 0),
                                             n.files + (if a.file then 1 else 0))
  {
    TotalAppend(areas, a, AccountedPages());
    TotalAppend(areas, a, Policies());
    TotalAppend(areas, a, Files());
  }

  /**
   The loop body of dup_mmap up to the linking, with its error exits: either a copy of the
   area with everything it needs, or an error and nothing taken.
   */
  method CopyArea(orig: Vma, mm: Mm, led: Ledger, l: Luck, ghost base: Balance, ghost areas: seq<Area>)
      returns (ret: int, copy: Vma?)
    requires led.Reads() == Needs(base, areas)
    modifies led
    ensures ret == FailsBefore(orig.area, l)
    ensures ret == 0 ==>
              copy != null && fresh(copy) && copy.area == Copy(orig.area) && copy.mm == mm && copy.next == null
    ensures led.Reads() == Needs(base, if ret == 0 then areas + [Copy(orig.area)] else areas)
  {
    NeedsGrow(base, areas, Copy(orig.area));
    hide Needs, Total;
    var charge := 0;
    copy := null;
    if l.signal {
      return -EINTR, null;
    }
    if orig.area.flags.account {
      var len := orig.area.pages;
      if !l.enoughMemory {
        led.committed := led.committed - charge;
        return -ENOMEM, null;
      }
      led.committed := led.committed + len;
      charge := len;
    }
    if !l.duplicated {
      led.committed := led.committed - charge;
      return -ENOMEM, null;
    }
    var tmp := new Vma.Dup(orig);
    led.vmas := led.vmas + 1;
    if l.policy != 0 {
      led.vmas := led.vmas - 1;
      led.committed := led.committed - charge;
      return -ENOMEM, null;
    }
    led.policies := led.policies + (if tmp.area.policy then 1 else 0);
    tmp.mm := mm;
    if l.userfault != 0 || (!tmp.area.flags.wipeOnFork && l.anonVma != 0) {
      led.policies := led.policies - (if tmp.area.policy then 1 else 0);
      led.vmas := led.vmas - 1;
      led.committed := led.committed - charge;
      return -ENOMEM, null;
    }
    tmp.area := Copy(tmp.area);
    if tmp.area.file {
      led.files := led.files + 1;
    }
    return 0, tmp;
  }

  /** The linking of the loop body: write the slot, point back to the last area, and count. */
  method LinkArea(mm: Mm, tmp: Vma, pprev: Slot, prev: Vma?, ghost vs: seq<Vma>, ghost oldmm: Mm, ghost olds: seq<Vma>)
    requires Linked(mm, vs) && tmp !in vs && tmp.mm == mm && tmp.next == null
    requires pprev == (if vs == [] then Head else NextOf(vs[|vs| - 1])) && prev == At(vs, |vs| - 1)
    requires mm != oldmm && Linked(oldmm, olds) && tmp !in olds && forall i | 0 <= i < |vs| :: vs[i] !in olds
    modifies mm`mmap, mm`mapCount, vs`next, tmp`prev
    ensures mm.mapCount == old(mm.mapCount) + 1 && Linked(oldmm, olds) && Areas(olds) == old(Areas(olds))
    ensures Linked(mm, vs + [tmp]) && Areas(vs + [tmp]) == old(Areas(vs)) + [old(tmp.area)]
  {
    match pprev {
      case Head => mm.mmap := tmp;
      case NextOf(v) => v.next := tmp;
    }
    tmp.prev := prev;
    mm.mapCount := mm.mapCount + 1;
    ghost var n, all := |vs|, vs + [tmp];
    assert n > 0 ==> vs[n - 1] in vs && vs[0] in vs && all[0] == vs[0];
    assert all[|all| - 1] == tmp && tmp.next == null;
    forall i | 0 < i <= n ensures all[i - 1].next == all[i] && all[i].prev == all[i - 1] {
      assert i < n ==> old(vs[i - 1].next) == vs[i] == all[i] && vs[i].prev == vs[i - 1];
    }
    assert Areas(all) == old(Areas(vs)) + [old(tmp.area)];
  }

  /** vm_stat_account, which concerns no list. */
  method StatAccount(mm: Mm, pages: int, ghost vs: seq<Vma>, ghost oldmm: Mm, ghost olds: seq<Vma>)
    requires mm != oldmm && Linked(mm, vs) && Linked(oldmm, olds)
    modifies mm`totalVm
    ensures mm.totalVm == old(mm.totalVm) + pages
    ensures Linked(mm, vs) && Linked(oldmm, olds) && Areas(vs) == old(Areas(vs)) && Areas(olds) == old(Areas(olds))
  {
    mm.totalVm := mm.totalVm + pages;
  }

  /** The loop body of dup_mmap for an area that may be copied; copy is null if it is not linked. */
  method CopyOne(orig: Vma, mm: Mm, led: Ledger, l: Luck, pprev: Slot, prev: Vma?,
                 ghost base: Balance, ghost vs: seq<Vma>, ghost oldmm: Mm, ghost olds: seq<Vma>)
    returns (ret: int, copy: Vma?)
    requires Linked(mm, vs) && led.Reads() == Needs(base, Areas(vs)) && mm.mapCount == |vs|
    requires mm != oldmm && Linked(oldmm, olds) && forall i | 0 <= i < |vs| :: vs[i] !in olds
    requires pprev == (if vs == [] then Head else NextOf(vs[|vs| - 1])) && prev == At(vs, |vs| - 1)
    modifies mm`mmap, mm`mapCount, vs`next, led
    ensures var all := if copy == null then vs else vs + [copy];
            Linked(mm, all) && led.Reads() == Needs(base, Areas(all)) && mm.mapCount == |all|
    ensures Linked(oldmm, olds) && Areas(olds) == old(Areas(olds)) && (copy == null || copy !in olds)
    ensures if FailsBefore(old(orig.area), l) != 0 then copy == null && ret == FailsBefore(old(orig.area), l) &&
        Areas(vs) == old(Areas(vs))
            else copy != null && fresh(copy) && ret == (if old(orig.area).flags.wipeOnFork then 0 else l.copyPages) &&
                 Areas(vs + [copy]) == old(Areas(vs)) + [Copy(old(orig.area))]
  {
    hide Needs, FailsBefore;
    ghost var done := Areas(vs);
    ret, copy := CopyArea(orig, mm, led, l, base, done);
    if ret != 0 {
      return ret, null;
    }
    assert Linked(mm, vs) && Linked(oldmm, olds) && Areas(vs) == done && Areas(olds) == old(Areas(olds));
    hide Linked, Areas;
    LinkArea(mm, copy, pprev, prev, vs, oldmm, olds);
    if !copy.area.flags.wipeOnFork {
      ret := l.copyPages;
    }
  }

  lemma AreasFacts(vs: seq<Vma>, k: nat)
    ensures |Areas(vs)| == |vs| && (k < |vs| ==> Areas(vs)[k] == vs[k].area)
  {
  }

  lemma LinkedFacts(mm: Mm, vs: seq<Vma>, k: nat)
    requires Linked(mm, vs)
    ensures mm.mmap == At(vs, 0) && (k < |vs| ==> vs[k].next == At(vs, k + 1))
  {
    assert k + 1 < |vs| ==> vs[k + 1 - 1].next == vs[k + 1];
  }

  lemma NothingLinked(mm: Mm, led: Ledger)
    requires mm.mmap == null
    ensures Linked(mm, []) && Areas([]) == [] && led.Reads() == Needs(led.Reads(), [])
    ensures Copies([]) == [] && Total([], SkippedPages()) == 0
  {
    assert Areas([]) == [];
  }

  /** The copy loop of dup_mmap, entered with the child's list empty. */
  method CopyLoop(mm: Mm, oldmm: Mm, led: Ledger, luck: seq<Luck>, arch: int, ghost olds: seq<Vma>)
    returns (ret: int, ghost vs: seq<Vma>)
    requires mm != oldmm && Linked(oldmm, olds) && |luck| == |olds|
    requires mm.mmap == null && mm.mapCount == 0
    modifies mm, led
    ensures Linked(mm, vs) && (forall i | 0 <= i < |vs| :: fresh(vs[i])) && Linked(oldmm, olds)
    ensures |old(Areas(olds))| == |olds| && (Areas(vs), ret) == Plan(old(Areas(olds)), luck, arch, 0)
    ensures mm.mapCount == |vs| && led.Reads() == Needs(old(led.Reads()), Areas(vs))
    ensures ret == 0 ==> mm.totalVm == old(mm.totalVm) - Total(old(Areas(olds)), SkippedPages())
  {
    hide Total, Copies, Plan, FailsBefore, Linked, Needs, Areas, Copy;
    vs, ret := [], 0;
    NothingLinked(mm, led);
    LinkedFacts(oldmm, olds, 0);
    AreasFacts(olds, 0);
    ghost var areas, base, total := Areas(olds), led.Reads(), mm.totalVm;
    var pprev := Head;
    var prev: Vma? := null;
    var mpnt := oldmm.mmap;
    var k := 0;   // which Luck is next
    assert areas[..0] == [] && [] + Plan(areas, luck, arch, 0).0 == Plan(areas, luck, arch, 0).0;
    while mpnt != null
      invariant 0 <= k <= |olds| && mpnt == At(olds, k)
      invariant Linked(mm, vs) && Linked(oldmm, olds) && areas == Areas(olds)
      invariant forall i | 0 <= i < |vs| :: fresh(vs[i]) && vs[i] !in olds
      invariant pprev == (if vs == [] then Head else NextOf(vs[|vs| - 1])) && prev == At(vs, |vs| - 1)
      invariant Plan(areas, luck, arch, 0).0 == Areas(vs) + Plan(areas, luck, arch, k).0
      invariant Plan(areas, luck, arch, 0).1 == Plan(areas, luck, arch, k).1
      invariant mm.mapCount == |vs| && mm.totalVm == total - Total(areas[..k], SkippedPages())
      invariant led.Reads() == Needs(base, Areas(vs)) && ret == 0
      decreases |olds| - k
    {
      var l := luck[k];
      LinkedFacts(oldmm, olds, k);
      AreasFacts(olds, k);
      LoopTurn(areas, luck, arch, k, Areas(vs));
      if mpnt.area.flags.dontCopy {
        StatAccount(mm, 0 - mpnt.area.pages, vs, oldmm, olds);
        mpnt := mpnt.next;
        k := k + 1;
        continue;
      }
      var tmp;
      ret, tmp := CopyOne(mpnt, mm, led, l, pprev, prev, base, vs, oldmm, olds);
      if tmp != null {
        vs := vs + [tmp];
      }
      if ret != 0 {
        return;
      }
      pprev, prev := NextOf(tmp), tmp;
      mpnt := mpnt.next;
      k := k + 1;
    }
    assert areas[..k] == areas && Areas(vs) + [] == Areas(vs);
    PlanEnd(areas, luck, arch);
    ret := arch;
  }

  /**
   dup_mmap: whatever happens on the way, the child's list is the in-order copy that Outcome
   says, linked in both directions, counted in mapCount, and the ledger holds exactly what
   the linked areas need. On success the pages counted in totalVm are the copied ones.
   */
  method DupMmap(mm: Mm, oldmm: Mm, led: Ledger, luck: seq<Luck>, setup: Setup, ghost olds: seq<Vma>)
    returns (ret: int, ghost vs: seq<Vma>)
    requires mm != oldmm && Linked(oldmm, olds) && |luck| == |olds|
    requires mm.mmap == null && mm.mapCount == 0
    modifies mm, led
    ensures Linked(mm, vs) && (forall i | 0 <= i < |vs| :: fresh(vs[i])) && Linked(oldmm, olds)
    ensures (Areas(vs), ret) == Outcome(old(Areas(olds)), luck, setup)
    ensures mm.mapCount == |vs|
    ensures led.Reads() == Needs(old(led.Reads()), Areas(vs))
    ensures ret == 0 && oldmm.totalVm == Total(old(Areas(olds)), AllPages()) ==>
              mm.totalVm == Total(Areas(vs), AllPages())
  {
    hide Total, Copies, Plan, Needs;
    vs := [];
    NothingLinked(mm, led);
    if setup.killed {
      return -EINTR, vs;
    }
    mm.totalVm := oldmm.totalVm;
    ret := setup.ksm;
    if ret != 0 {
      return;
    }
    ret := setup.khugepaged;
    if ret != 0 {
      return;
    }
    PagesSplit(Areas(olds));
    AllCopied(Areas(olds), luck, setup.arch);
    ret, vs := CopyLoop(mm, oldmm, led, luck, setup.arch, olds);
  }

  /** On success everything that may be copied has been. */
  lemma AllCopied(areas: seq<Area>, luck: seq<Luck>, arch: int)
    requires |luck| == |areas|
    ensures Plan(areas, luck, arch, 0).1 == 0 ==> Plan(areas, luck, arch, 0).0 == Copies(areas)
  {
    var n := PlanIsPrefix(areas, luck, arch, 0);
    assert areas[0..|areas|] == areas;
  }

  /** One turn of the loop: what is planned, and what has been skipped so far. */
  lemma LoopTurn(areas: seq<Area>, luck: seq<Luck>, arch: int, k: nat, done: seq<Area>)
    requires |luck| == |areas| && k < |areas|
    ensures var a, l, plan, rest := areas[k], luck[k], Plan(areas, luck, arch, k), Plan(areas, luck, arch, k + 1);
            if a.flags.dontCopy then plan == rest
            else if FailsBefore(a, l) != 0 then done + plan.0 == done && plan.1 == FailsBefore(a, l)
            else if !a.flags.wipeOnFork && l.copyPages != 0 then done + plan.0 == done + [Copy(a)] &&
                plan.1 == l.copyPages
            else done + plan.0 == done + [Copy(a)] + rest.0 && plan.1 == rest.1
    ensures Total(areas[..k + 1], SkippedPages()) ==
            Total(areas[..k], SkippedPages()) + if areas[k].flags.dontCopy then areas[k].pages else 0
  {
    PlanStep(areas, luck, arch, k, done);
    assert areas[..k + 1] == areas[..k] + [areas[k]];
    TotalAppend(areas[..k], areas[k], SkippedPages());
  }

  /** Plan at position k, with what has been linked before. */
  lemma PlanStep(areas: seq<Area>, luck: seq<Luck>, arch: int, k: nat, done: seq<Area>)
    requires |luck| == |areas| && k < |areas|
    ensures var a, l, plan, rest := areas[k], luck[k], Plan(areas, luck, arch, k), Plan(areas, luck, arch, k + 1);
            if a.flags.dontCopy then plan == rest
            else if FailsBefore(a, l) != 0 then done + plan.0 == done && plan.1 == FailsBefore(a, l)
            else if !a.flags.wipeOnFork && l.copyPages != 0 then done + plan.0 == done + [Copy(a)] &&
                plan.1 == l.copyPages
            else done + plan.0 == done + [Copy(a)] + rest.0 && plan.1 == rest.1
  {
    assert done + [] == done;
    var c, rest := [Copy(areas[k])], Plan(areas, luck, arch, k + 1).0;
    assert done + (c + rest) == done + c + rest;
  }

  lemma PlanEnd(areas: seq<Area>, luck: seq<Luck>, arch: int)
    requires |luck| == |areas|
    ensures Plan(areas, luck, arch, |areas|) == ([], arch)
  {
  }
}
