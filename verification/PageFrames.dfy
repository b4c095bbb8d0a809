/**
  The physical page allocator of core/memory.c as a value: a bitmap, a bump
  pointer and a bounded free list. `FreeSet` is the simple object it should
  behave like; the lemmas below show that it does.
 */
module PageFrames {
  import opened Options

  const MEM_BASE: nat := 0x100000
  const MEM_CAP: nat := 0x10000000
  const PAGE_SIZE: nat := 4096
  const FALLBACK_TOP: nat := 0x1000000
  const BITMAP_SIZE: nat := 8192
  const DMA_BASE: nat := 0x200000

  /** Physical address of the page the bitmap calls number `i`. */
  function Addr(i: nat): nat {
    MEM_BASE + PAGE_SIZE * i
  }

  function Index(a: nat): nat
    requires a >= MEM_BASE
  {
    (a - MEM_BASE) / PAGE_SIZE
  }

  /**
    `used` is the bitmap, `next` the bump pointer as a page number, `top` the
    byte address mem_top, `freeCap` the capacity of the free list.
   */
  datatype Mem = Mem(used: seq<bool>, next: nat, top: nat, freeList: seq<nat>, freeCap: nat)

  ghost predicate Distinct(s: seq<nat>) {
    forall i, j :: 0 <= i < j < |s| ==> s[i] != s[j]
  }

  predicate IsPage(m: Mem, a: nat) {
    a >= MEM_BASE && a % PAGE_SIZE == 0 && Index(a) < |m.used|
  }

  /** A page the bitmap does not offer: handed out, on the free list, or never usable. */
  predicate Taken(m: Mem, a: nat) {
    IsPage(m, a) && m.used[Index(a)]
  }

  predicate WellFormed(m: Mem) {
    m.top <= Addr(|m.used|)
  }

  ghost predicate MemInv(m: Mem) {
    && WellFormed(m)
    && (forall i :: 0 <= i < m.next && i < |m.used| ==> m.used[i])
    && (forall i :: 0 <= i < |m.used| && !m.used[i] ==> Addr(i) + PAGE_SIZE <= m.top)
    && |m.freeList| <= m.freeCap
    && Distinct(m.freeList)
    && (forall a :: a in m.freeList ==> Taken(m, a))
  }

  ghost function FreeSet(m: Mem): set<nat> {
    (set i | 0 <= i < |m.used| && !m.used[i] :: Addr(i)) + (set a | a in m.freeList)
  }

  lemma AddrIndex(a: nat)
    requires a >= MEM_BASE && a % PAGE_SIZE == 0
    ensures Addr(Index(a)) == a
  {
  }

  lemma IndexAddr(i: nat)
    ensures Index(Addr(i)) == i && Addr(i) % PAGE_SIZE == 0
  {
  }

  // ---- alloc_page -------------------------------------------------------

  /** First page number from `i` on that the bump scan stops at. */
  function FirstFree(m: Mem, i: nat): (j: nat)
    requires WellFormed(m)
    ensures i <= j
    ensures Addr(j) < m.top ==> j < |m.used| && !m.used[j]
    ensures forall x :: i <= x < j ==> x < |m.used| && m.used[x]
    decreases m.top - Addr(i)
  {
    if Addr(i) >= m.top then i
    else if !m.used[i] then i
    else FirstFree(m, i + 1)
  }

  function AllocPage(m: Mem): (r: (Mem, Option<nat>))
    requires WellFormed(m)
  {
    if |m.freeList| > 0 then
      (m.(freeList := m.freeList[..|m.freeList| - 1]), Some(m.freeList[|m.freeList| - 1]))
    else
      var j := FirstFree(m, m.next);
      if Addr(j) < m.top then
        (m.(used := m.used[j := true], next := j + 1), Some(Addr(j)))
      else
        (m.(next := j), None)
  }

  /** free_page never clears the bitmap bit, and drops the page when the list is full. */
  function FreePage(m: Mem, a: nat): (r: Mem) {
    if a == 0 then m
    else if |m.freeList| < m.freeCap then m.(freeList := m.freeList + [a])
    else m
  }

  // ---- find_and_claim_contig --------------------------------------------

  predicate RunFree(m: Mem, s: nat, count: nat)
    requires WellFormed(m)
  {
    Addr(s + count) <= m.top && forall x :: s <= x < s + count ==> !m.used[x]
  }

  function FirstRun(m: Mem, s: nat, count: nat): (r: Option<nat>)
    requires WellFormed(m)
    ensures r.Some? ==> s <= r.value && RunFree(m, r.value, count)
    ensures r.Some? ==> forall t :: s <= t < r.value ==> !RunFree(m, t, count)
    ensures r.None? ==> forall t :: s <= t ==> !RunFree(m, t, count)
    decreases m.top - Addr(s)
  {
    if Addr(s + count) > m.top then None
    else if RunFree(m, s, count) then Some(s)
    else FirstRun(m, s + 1, count)
  }

  function Claim(m: Mem, s: nat, count: nat): (r: Mem)
    ensures |r.used| == |m.used|
  {
    m.(used := seq(|m.used|, x requires 0 <= x < |m.used| => m.used[x] || s <= x < s + count))
  }

  function ClaimContig(m: Mem, start: nat, count: int): (r: (Mem, Option<nat>))
    requires WellFormed(m) && start >= MEM_BASE
  {
    if count <= 0 then (m, None)
    else
      var run := FirstRun(m, Index(start), count);
      if run.None? then (m, None)
      else (Claim(m, run.value, count), Some(Addr(run.value)))
  }

  function DmaPages(m: Mem, count: int): (r: (Mem, Option<nat>))
    requires WellFormed(m)
  {
    ClaimContig(m, DMA_BASE, count)
  }

  /** The addresses of `count` consecutive pages. */
  ghost function RunPages(a: nat, count: nat): set<nat> {
    set i | 0 <= i < count :: a + PAGE_SIZE * i
  }

  // ---- refinement of a set of free pages --------------------------------

  lemma FreeListNotInBitmap(m: Mem, a: nat)
    requires MemInv(m) && a in m.freeList
    ensures forall i :: 0 <= i < |m.used| && !m.used[i] ==> Addr(i) != a
  {
    forall i | 0 <= i < |m.used| && !m.used[i]
      ensures Addr(i) != a
    {
      IndexAddr(i);
      assert Taken(m, a);
    }
  }

  lemma AllocPageKeepsInv(m: Mem)
    requires MemInv(m)
    ensures MemInv(AllocPage(m).0)
  {
    var (m', r) := AllocPage(m);
    if |m.freeList| == 0 && r.Some? {
      var j := FirstFree(m, m.next);
      assert m'.used == m.used[j := true];
    } else if |m.freeList| > 0 {
      assert forall a :: a in m'.freeList ==> a in m.freeList && Taken(m, a);
    }
  }

  /**
    alloc_page is removal from the set of free pages: it answers null exactly
    when that set is empty, and otherwise hands out one member and removes it.
   */
  lemma AllocPageRefines(m: Mem)
    requires MemInv(m)
    ensures var (m', r) := AllocPage(m);
            && MemInv(m')
            && (r.None? <==> FreeSet(m) == {})
            && (r.None? ==> FreeSet(m') == FreeSet(m))
            && (r.Some? ==> r.value in FreeSet(m) && FreeSet(m') == FreeSet(m) - {r.value} && Taken(m', r.value))
  {
    AllocPageKeepsInv(m);
    if |m.freeList| > 0 {
      PopRefines(m);
    } else {
      BumpRefines(m);
    }
  }

  lemma PopRefines(m: Mem)
    requires MemInv(m) && |m.freeList| > 0
    ensures var (m', r) := AllocPage(m);
            && r == Some(m.freeList[|m.freeList| - 1])
            && r.value in FreeSet(m) && FreeSet(m') == FreeSet(m) - {r.value} && Taken(m', r.value)
  {
    var a, m' := m.freeList[|m.freeList| - 1], AllocPage(m).0;
    FreeListNotInBitmap(m, a);
    assert a in m.freeList && a !in m'.freeList;
    assert forall x :: x in m.freeList <==> x in m'.freeList || x == a;
  }

  lemma BumpRefines(m: Mem)
    requires MemInv(m) && |m.freeList| == 0
    ensures var (m', r) := AllocPage(m);
            && (r.None? <==> FreeSet(m) == {})
            && (r.None? ==> FreeSet(m') == FreeSet(m))
            && (r.Some? ==> r.value in FreeSet(m) && FreeSet(m') == FreeSet(m) - {r.value} && Taken(m', r.value))
  {
    var m' := AllocPage(m).0;
    var j := FirstFree(m, m.next);
    IndexAddr(j);
    if Addr(j) < m.top {
      assert Addr(j) in FreeSet(m);
      assert FreeSet(m') == FreeSet(m) - {Addr(j)};
    } else {
      assert forall i :: 0 <= i < |m.used| ==> m.used[i];
      assert FreeSet(m) == {};
    }
  }

  /** free_page adds the page to the set of free pages, or leaks it when the list is full. */
  lemma FreePageRefines(m: Mem, a: nat)
    requires MemInv(m) && Taken(m, a) && a !in m.freeList
    ensures MemInv(FreePage(m, a))
    ensures FreeSet(FreePage(m, a)) ==
            if |m.freeList| < m.freeCap then FreeSet(m) + {a} else FreeSet(m)
  {
    var m' := FreePage(m, a);
    if |m.freeList| < m.freeCap {
      assert forall x :: x in m'.freeList <==> x in m.freeList || x == a;
    }
  }

  /**
    find_and_claim_contig returns the lowest run of bitmap-free pages at or
    above its start, or null when there is none, and removes exactly that run.
   */
  lemma ClaimContigRefines(m: Mem, start: nat, count: int)
    requires MemInv(m) && start >= MEM_BASE && start % PAGE_SIZE == 0
    ensures var (m', r) := ClaimContig(m, start, count);
            && MemInv(m')
            && (r.None? <==> count <= 0 || forall t :: Index(start) <= t ==> !RunFree(m, t, count))
            && (r.None? ==> m' == m)
            && (r.Some? ==>
                  && r.value >= start && r.value % PAGE_SIZE == 0
                  && RunFree(m, Index(r.value), count)
                  && (forall t :: Index(start) <= t < Index(r.value) ==> !RunFree(m, t, count))
                  && RunPages(r.value, count) <= FreeSet(m)
                  && FreeSet(m') == FreeSet(m) - RunPages(r.value, count)
                  && forall a :: a in RunPages(r.value, count) ==> Taken(m', a) && a !in m'.freeList)
  {
    var (m', r) := ClaimContig(m, start, count);
    if r.Some? {
      var s := FirstRun(m, Index(start), count).value;
      IndexAddr(s);
      ClaimedPages(m, s, count);
    }
  }

  lemma InRun(s: nat, count: nat, i: nat)
    ensures Addr(i) in RunPages(Addr(s), count) <==> s <= i < s + count
  {
    if s <= i < s + count {
      assert Addr(i) == Addr(s) + PAGE_SIZE * (i - s);
    }
  }

  lemma ClaimedPages(m: Mem, s: nat, count: nat)
    requires MemInv(m) && RunFree(m, s, count)
    ensures MemInv(Claim(m, s, count))
    ensures RunPages(Addr(s), count) <= FreeSet(m)
    ensures FreeSet(Claim(m, s, count)) == FreeSet(m) - RunPages(Addr(s), count)
    ensures forall a :: a in RunPages(Addr(s), count) ==> Taken(Claim(m, s, count), a) && a !in m.freeList
  {
    var m' := Claim(m, s, count);
    var run := RunPages(Addr(s), count);
    forall a | a in run
      ensures a in FreeSet(m) && Taken(m', a) && a !in m.freeList
    {
      var i :| 0 <= i < count && a == Addr(s) + PAGE_SIZE * i;
      assert a == Addr(s + i);
      IndexAddr(s + i);
    }
    forall i: nat
      ensures Addr(i) in run <==> s <= i < s + count
    {
      InRun(s, count, i);
    }
    assert forall i :: 0 <= i < |m.used| ==> (m'.used[i] <==> m.used[i] || Addr(i) in run);
    assert FreeSet(m') == FreeSet(m) - run;
  }

  // ---- no page is handed out twice while it is owned ---------------------

  datatype AllocCall = Alloc | Free(page: nat) | Contig(start: nat, count: int)

  datatype Ledger = Ledger(mem: Mem, owned: set<nat>)

  /** Callers free only what they own, and ask for runs from page boundaries. */
  ghost predicate CallOk(l: Ledger, c: AllocCall) {
    match c
    case Alloc => true
    case Free(a) => a in l.owned
    case Contig(start, _) => start >= MEM_BASE && start % PAGE_SIZE == 0
  }

  /** The pages a call hands out. */
  ghost function Issued(m: Mem, c: AllocCall): set<nat>
    requires WellFormed(m)
  {
    match c
    case Alloc => (match AllocPage(m).1 case None => {} case Some(a) => {a})
    case Free(_) => {}
    case Contig(start, count) =>
      if start < MEM_BASE then {}
      else (match ClaimContig(m, start, count).1 case None => {} case Some(a) => RunPages(a, count))
  }

  ghost function Apply(l: Ledger, c: AllocCall): Ledger
    requires WellFormed(l.mem) && CallOk(l, c)
  {
    match c
    case Alloc => Ledger(AllocPage(l.mem).0, l.owned + Issued(l.mem, c))
    case Free(a) => Ledger(FreePage(l.mem, a), l.owned - {a})
    case Contig(start, count) => Ledger(ClaimContig(l.mem, start, count).0, l.owned + Issued(l.mem, c))
  }

  /** Owned pages are taken and are not waiting on the free list. */
  ghost predicate LedgerInv(l: Ledger) {
    MemInv(l.mem) && forall a :: a in l.owned ==> Taken(l.mem, a) && a !in l.mem.freeList
  }

  lemma OwnedNotFree(l: Ledger)
    requires LedgerInv(l)
    ensures l.owned !! FreeSet(l.mem)
  {
    forall a | a in l.owned
      ensures a !in FreeSet(l.mem)
    {
      forall i | 0 <= i < |l.mem.used| && !l.mem.used[i]
        ensures Addr(i) != a
      {
        IndexAddr(i);
      }
    }
  }

  lemma AllocKeepsLedger(l: Ledger, c: AllocCall)
    requires LedgerInv(l) && CallOk(l, c) && c.Alloc?
    ensures LedgerInv(Apply(l, c))
    ensures Issued(l.mem, c) !! l.owned
  {
    OwnedNotFree(l);
    AllocPageRefines(l.mem);
  }

  lemma FreeKeepsLedger(l: Ledger, c: AllocCall)
    requires LedgerInv(l) && CallOk(l, c) && c.Free?
    ensures LedgerInv(Apply(l, c))
    ensures Issued(l.mem, c) !! l.owned
  {
    OwnedNotFree(l);
    FreePageRefines(l.mem, c.page);
  }

  lemma ContigKeepsLedger(l: Ledger, c: AllocCall)
    requires LedgerInv(l) && CallOk(l, c) && c.Contig?
    ensures LedgerInv(Apply(l, c))
    ensures Issued(l.mem, c) !! l.owned
  {
    OwnedNotFree(l);
    ClaimContigRefines(l.mem, c.start, c.count);
  }

  lemma ApplyKeepsLedger(l: Ledger, c: AllocCall)
    requires LedgerInv(l) && CallOk(l, c)
    ensures LedgerInv(Apply(l, c))
    ensures Issued(l.mem, c) !! l.owned
  {
    match c
    case Alloc => AllocKeepsLedger(l, c);
    case Free(_) => FreeKeepsLedger(l, c);
    case Contig(_, _) => ContigKeepsLedger(l, c);
  }

  ghost predicate CallsOk(l: Ledger, calls: seq<AllocCall>)
    requires LedgerInv(l)
    decreases |calls|
  {
    |calls| > 0 ==>
      && CallOk(l, calls[0])
      && (ApplyKeepsLedger(l, calls[0]); CallsOk(Apply(l, calls[0]), calls[1..]))
  }

  ghost function Run(l: Ledger, calls: seq<AllocCall>): (r: Ledger)
    requires LedgerInv(l) && CallsOk(l, calls)
    ensures LedgerInv(r)
    decreases |calls|
  {
    if calls == [] then l
    else ApplyKeepsLedger(l, calls[0]); Run(Apply(l, calls[0]), calls[1..])
  }

  /**
    Over every sequence of calls in which callers only free what they own, no
    call ever hands out a page that somebody still owns.
   */
  lemma NeverIssuedTwice(l: Ledger, calls: seq<AllocCall>, c: AllocCall)
    requires LedgerInv(l) && CallsOk(l, calls) && CallOk(Run(l, calls), c)
    ensures Issued(Run(l, calls).mem, c) !! Run(l, calls).owned
  {
    ApplyKeepsLedger(Run(l, calls), c);
  }
}
