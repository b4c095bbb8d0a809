/** core/memory.c: the allocator's state, updated in place, refining PageFrames. */
module Memory {
  import opened Options
  import opened Words
  import opened PageFrames

  // ---- the bitmap as bytes ----------------------------------------------

  function Bit(k: nat): bv8
    requires k < 8
  {
    (1 as bv8) << k
  }

  predicate TestBit(b: bv8, k: nat)
    requires k < 8
  {
    b & Bit(k) != 0
  }

  /** The bitmap's bytes read as one flag per page. */
  function UsedBits(bytes: seq<bv8>): (r: seq<bool>)
    ensures |r| == 8 * |bytes|
  {
    seq(8 * |bytes|, i requires 0 <= i < 8 * |bytes| => TestBit(bytes[i / 8], i % 8))
  }

  lemma SetBitAt(b: bv8, k: nat, j: nat)
    requires k < 8 && j < 8
    ensures TestBit(b | Bit(k), j) == (j == k || TestBit(b, j))
  {
  }

  lemma ClearBitAt(b: bv8, k: nat, j: nat)
    requires k < 8 && j < 8
    ensures TestBit(b & !Bit(k), j) == (j != k && TestBit(b, j))
  {
  }

  /** Writing one byte of the bitmap changes one page's flag and no other. */
  lemma SetUsedBit(bytes: seq<bv8>, i: nat)
    requires i < 8 * |bytes|
    ensures UsedBits(bytes[i / 8 := bytes[i / 8] | Bit(i % 8)]) == UsedBits(bytes)[i := true]
  {
    var bytes' := bytes[i / 8 := bytes[i / 8] | Bit(i % 8)];
    forall j | 0 <= j < 8 * |bytes|
      ensures UsedBits(bytes')[j] == UsedBits(bytes)[i := true][j]
    {
      if j / 8 == i / 8 {
        SetBitAt(bytes[i / 8], i % 8, j % 8);
      }
    }
  }

  lemma ClearUsedBit(bytes: seq<bv8>, i: nat)
    requires i < 8 * |bytes|
    ensures UsedBits(bytes[i / 8 := bytes[i / 8] & !Bit(i % 8)]) == UsedBits(bytes)[i := false]
  {
    var bytes' := bytes[i / 8 := bytes[i / 8] & !Bit(i % 8)];
    forall j | 0 <= j < 8 * |bytes|
      ensures UsedBits(bytes')[j] == UsedBits(bytes)[i := false][j]
    {
      if j / 8 == i / 8 {
        ClearBitAt(bytes[i / 8], i % 8, j % 8);
      }
    }
  }

  // ---- what memory_init should compute ------------------------------------

  /** A usable-RAM region as the firmware reports it. */
  datatype Region = Region(base: u64, length: u64)

  function Min(a: nat, b: nat): nat { if a < b then a else b }
  function Max(a: nat, b: nat): nat { if a < b then b else a }

  predicate Wraps(r: Region) {
    r.base + r.length >= 0x1_0000_0000_0000_0000
  }

  /** Something is left of the region after clipping to [MEM_BASE, MEM_CAP). */
  predicate Survives(r: Region) {
    !Wraps(r) && Max(r.base, MEM_BASE) < Min(r.base + r.length, MEM_CAP)
  }

  /** Page i lies wholly inside the clipped region. */
  predicate Covers(r: Region, i: nat) {
    !Wraps(r) && r.base <= Addr(i) && Addr(i) + PAGE_SIZE <= Min(r.base + r.length, MEM_CAP)
  }

  ghost predicate FreeAtBoot(regions: seq<Region>, i: nat) {
    if exists r :: r in regions && Survives(r) then exists r :: r in regions && Covers(r, i)
    else Addr(i) + PAGE_SIZE <= FALLBACK_TOP
  }

  ghost predicate TopAtBoot(regions: seq<Region>, top: nat) {
    if exists r :: r in regions && Survives(r) then
      && (forall r :: r in regions && Survives(r) ==> Min(r.base + r.length, MEM_CAP) <= top)
      && (exists r :: r in regions && Survives(r) && Min(r.base + r.length, MEM_CAP) == top)
    else top == FALLBACK_TOP
  }

  class PageAllocator {
    var bitmap: array<bv8>
    var nextFreePage: nat
    var memTop: nat
    var freeList: array<nat>
    var freeListCount: nat

    ghost predicate Valid()
      reads this
    {
      && bitmap as object != freeList as object
      && bitmap.Length == BITMAP_SIZE
      && freeListCount <= freeList.Length
      && nextFreePage >= MEM_BASE && nextFreePage == Addr(Index(nextFreePage))
      && memTop <= Addr(8 * BITMAP_SIZE)
    }

    ghost function State(): (m: Mem)
      requires Valid()
      reads this, bitmap, freeList
      ensures WellFormed(m)
    {
      Mem(UsedBits(bitmap[..]), Index(nextFreePage), memTop, freeList[..freeListCount], freeList.Length)
    }

    /** What the .bss section holds before memory_init runs. */
    constructor (freeListCapacity: nat)
      ensures Valid() && fresh(bitmap) && fresh(freeList)
      ensures freeListCount == 0 && freeList.Length == freeListCapacity
    {
      bitmap := new bv8[BITMAP_SIZE];
      freeList := new nat[freeListCapacity];
      freeListCount := 0;
      nextFreePage := MEM_BASE;
      memTop := 0;
    }

    method BitmapSetUsed(i: nat)
      requires Valid() && i < 8 * BITMAP_SIZE
      modifies bitmap
      ensures UsedBits(bitmap[..]) == old(UsedBits(bitmap[..]))[i := true]
    {
      SetUsedBit(bitmap[..], i);
      bitmap[i / 8] := bitmap[i / 8] | Bit(i % 8);
      assert bitmap[..] == old(bitmap[..])[i / 8 := old(bitmap[i / 8]) | Bit(i % 8)];
    }

    method BitmapClearUsed(i: nat)
      requires Valid() && i < 8 * BITMAP_SIZE
      modifies bitmap
      ensures UsedBits(bitmap[..]) == old(UsedBits(bitmap[..]))[i := false]
    {
      ClearUsedBit(bitmap[..], i);
      bitmap[i / 8] := bitmap[i / 8] & !Bit(i % 8);
      assert bitmap[..] == old(bitmap[..])[i / 8 := old(bitmap[i / 8]) & !Bit(i % 8)];
    }

    method BitmapIsUsed(i: nat) returns (b: bool)
      requires Valid() && i < 8 * BITMAP_SIZE
      ensures b == UsedBits(bitmap[..])[i]
    {
      b := bitmap[i / 8] & Bit(i % 8) != 0;
    }

    /** Clears exactly the pages that lie wholly inside [base, end). */
    method MarkRangeFree(base: nat, end: nat)
      requires Valid() && MEM_BASE <= base && end <= MEM_CAP
      modifies bitmap
      ensures forall i :: 0 <= i < 8 * BITMAP_SIZE ==>
                UsedBits(bitmap[..])[i] ==
                (old(UsedBits(bitmap[..]))[i] && !(base <= Addr(i) && Addr(i) + PAGE_SIZE <= end))
    {
      var first := (base + PAGE_SIZE - 1) / PAGE_SIZE * PAGE_SIZE;
      var last := end / PAGE_SIZE * PAGE_SIZE;
      if first >= last {
        return;
      }
      WholePages(base, end, first, last);
      var addr := first;
      ghost var p := Index(first);
      while addr < last
        invariant first <= addr <= last && addr == Addr(p)
        invariant forall i :: 0 <= i < 8 * BITMAP_SIZE ==>
                    UsedBits(bitmap[..])[i] == (old(UsedBits(bitmap[..]))[i] && !(Index(first) <= i < p))
      {
        IndexAddr(p);
        BitmapClearUsed((addr - MEM_BASE) / PAGE_SIZE);
        addr := addr + PAGE_SIZE;
        p := p + 1;
      }
    }

    /** One round of memory_init's loop: clip the region, raise the top, free its whole pages. */
    method AddRegion(r: Region, highest: nat) returns (highest': nat)
      requires Valid()
      modifies bitmap
      ensures forall i :: 0 <= i < 8 * BITMAP_SIZE ==>
                UsedBits(bitmap[..])[i] == (old(UsedBits(bitmap[..]))[i] && !Covers(r, i))
      ensures highest' == if Survives(r) then Max(highest, Min(r.base + r.length, MEM_CAP)) else highest
    {
      highest' := highest;
      var base := r.base;
      var end := Add64(base, r.length);
      if base < MEM_BASE {
        base := MEM_BASE;
      }
      if end > MEM_CAP {
        end := MEM_CAP;
      }
      ClippedRegion(r);
      NothingCovered(r);
      if base >= end {
        return;
      }
      if end > highest' {
        highest' := end;
      }
      MarkRangeFree(base, end);
    }

    /**
      A page is free after memory_init if and only if it lies wholly inside one
      reported region clipped to [1MB, 256MB); the 1MB-16MB fallback is used
      exactly when no region survives the clipping. A region whose end wraps
      around 2^64 contributes nothing.
     */
    method MemoryInit(regions: seq<Region>)
      requires Valid() && freeListCount == 0
      modifies this`nextFreePage, this`memTop, bitmap
      ensures Valid() && State().next == 0 && State().freeList == []
      ensures forall i :: 0 <= i < 8 * BITMAP_SIZE ==> (State().used[i] <==> !FreeAtBoot(regions, i))
      ensures TopAtBoot(regions, memTop)
      ensures MemInv(State())
    {
      FillBitmap();
      nextFreePage := MEM_BASE;
      memTop := FALLBACK_TOP;
      if |regions| == 0 {
        MarkRangeFree(MEM_BASE, FALLBACK_TOP);
        return;
      }
      var highest: nat := 0;
      var k := 0;
      while k < |regions|
        invariant 0 <= k <= |regions| && Valid() && nextFreePage == MEM_BASE
        invariant forall i :: 0 <= i < 8 * BITMAP_SIZE ==>
                    (UsedBits(bitmap[..])[i] <==> forall r :: r in regions[..k] ==> !Covers(r, i))
        invariant HighestSoFar(regions[..k], highest)
      {
        assert regions[..k + 1] == regions[..k] + [regions[k]];
        highest := AddRegion(regions[k], highest);
        k := k + 1;
      }
      assert regions[..k] == regions;
      if highest <= MEM_BASE {
        forall i: nat, r | r in regions
          ensures !Covers(r, i)
        {
          NothingCovered(r);
        }
        MarkRangeFree(MEM_BASE, FALLBACK_TOP);
        memTop := FALLBACK_TOP;
      } else {
        memTop := highest;
      }
      CoveredBelowTop(regions, memTop);
    }

    method FillBitmap()
      requires Valid()
      modifies bitmap
      ensures forall i :: 0 <= i < 8 * BITMAP_SIZE ==> UsedBits(bitmap[..])[i]
    {
      var k := 0;
      while k < BITMAP_SIZE
        invariant 0 <= k <= BITMAP_SIZE
        invariant forall j :: 0 <= j < k ==> bitmap[j] == 0xFF
      {
        bitmap[k] := 0xFF;
        k := k + 1;
      }
      forall i | 0 <= i < 8 * BITMAP_SIZE
        ensures UsedBits(bitmap[..])[i]
      {
        FullByte(i % 8);
      }
    }

    method AllocatePage() returns (page: Option<nat>)
      requires Valid()
      modifies this`nextFreePage, this`freeListCount, bitmap
      ensures Valid()
      ensures (State(), page) == AllocPage(old(State()))
    {
      if freeListCount > 0 {
        freeListCount := freeListCount - 1;
        assert freeList[..freeListCount] == old(freeList[..freeListCount])[..freeListCount];
        return Some(freeList[freeListCount]);
      }
      page := BumpAllocate();
    }

    /** With nothing on the free list the page comes from the bump pointer. */
    method BumpAllocate() returns (page: Option<nat>)
      requires Valid() && freeListCount == 0
      modifies this`nextFreePage, bitmap
      ensures Valid()
      ensures (State(), page) == AllocPage(old(State()))
    {
      ghost var m := State();
      assert m.freeList == [];
      var found := BumpScan();
      if found {
        BitmapSetUsed(Index(nextFreePage));
        page := Some(nextFreePage);
        nextFreePage := nextFreePage + PAGE_SIZE;
        IndexAddr(FirstFree(m, m.next) + 1);
      } else {
        page := None;
      }
    }

    /** The bump scan: moves the pointer to the next page the bitmap offers, or past mem_top. */
    method BumpScan() returns (found: bool)
      requires Valid()
      modifies this`nextFreePage
      ensures Valid()
      ensures State() == old(State()).(next := FirstFree(old(State()), old(State()).next))
      ensures found == (nextFreePage < memTop)
    {
      ghost var m := State();
      ghost var i := m.next;
      while nextFreePage < memTop
        invariant nextFreePage == Addr(i)
        invariant FirstFree(m, m.next) == FirstFree(m, i)
        decreases memTop - nextFreePage
      {
        ScanAt(m, i, nextFreePage);
        var isUsed := BitmapIsUsed(Index(nextFreePage));
        if !isUsed {
          return true;
        }
        nextFreePage := nextFreePage + PAGE_SIZE;
        i := i + 1;
      }
      ScanPast(m, i);
      return false;
    }

    method Release(a: nat)
      requires Valid()
      modifies this`freeListCount, freeList
      ensures Valid()
      ensures State() == FreePage(old(State()), a)
    {
      if a == 0 {
        return;
      }
      if freeListCount < freeList.Length {
        freeList[freeListCount] := a;
        freeListCount := freeListCount + 1;
        assert freeList[..freeListCount] == old(freeList[..freeListCount]) + [a];
      }
    }

    /** Whether every page of a run is free, stopping at the first used one. */
    method AllFree(start: nat, count: nat) returns (b: bool)
      requires Valid() && Addr(start + count) <= memTop
      ensures b == RunFree(State(), start, count)
    {
      b := true;
      var i := 0;
      while i < count
        invariant 0 <= i <= count
        invariant forall x :: start <= x < start + i ==> !UsedBits(bitmap[..])[x]
      {
        var isUsed := BitmapIsUsed(start + i);
        if isUsed {
          assert State().used[start + i];
          return false;
        }
        i := i + 1;
      }
    }

    method ClaimRun(start: nat, count: nat)
      requires Valid() && Addr(start + count) <= memTop
      modifies bitmap
      ensures State() == Claim(old(State()), start, count)
    {
      var i := 0;
      while i < count
        invariant 0 <= i <= count
        invariant forall x :: 0 <= x < 8 * BITMAP_SIZE ==>
                    UsedBits(bitmap[..])[x] == (old(UsedBits(bitmap[..]))[x] || start <= x < start + i)
      {
        BitmapSetUsed(start + i);
        i := i + 1;
      }
      assert State().used == Claim(old(State()), start, count).used;
    }

    /** The outer scan: the index of the lowest free run at or above a page. */
    method FindRun(searchStart: nat, count: nat) returns (run: Option<nat>)
      requires Valid() && searchStart >= MEM_BASE && searchStart % PAGE_SIZE == 0 && count > 0
      ensures run == FirstRun(State(), Index(searchStart), count)
    {
      ghost var m := State();
      var s: nat := Index(searchStart);
      AddrIndex(searchStart);
      var start := searchStart;
      while start + count * PAGE_SIZE <= memTop
        invariant start == Addr(s)
        invariant FirstRun(m, Index(searchStart), count) == FirstRun(m, s, count)
        decreases memTop - start
      {
        IndexAddr(s);
        FirstRunStep(m, s, count);
        var allFree := AllFree(s, count);
        if allFree {
          return Some(s);
        }
        start := start + PAGE_SIZE;
        s := s + 1;
      }
      return None;
    }

    method FindAndClaimContig(searchStart: nat, count: int) returns (page: Option<nat>)
      requires Valid() && searchStart >= MEM_BASE && searchStart % PAGE_SIZE == 0
      modifies bitmap
      ensures Valid()
      ensures (State(), page) == ClaimContig(old(State()), searchStart, count)
    {
      if count <= 0 {
        return None;
      }
      var run := FindRun(searchStart, count);
      if run.None? {
        return None;
      }
      ClaimRun(run.value, count);
      return Some(MEM_BASE + run.value * PAGE_SIZE);
    }

    method AllocDmaPages(count: int) returns (page: Option<nat>)
      requires Valid()
      modifies bitmap
      ensures Valid()
      ensures (State(), page) == DmaPages(old(State()), count)
    {
      page := FindAndClaimContig(DMA_BASE, count);
    }
  }

  /** Rounding inward: the pages from first up to last are those wholly inside [base, end). */
  lemma WholePages(base: nat, end: nat, first: nat, last: nat)
    requires MEM_BASE <= base && first < last
    requires first == (base + PAGE_SIZE - 1) / PAGE_SIZE * PAGE_SIZE && last == end / PAGE_SIZE * PAGE_SIZE
    ensures MEM_BASE <= first && first == Addr(Index(first)) && last == Addr(Index(last))
    ensures forall i: nat :: Index(first) <= i < Index(last) <==> base <= Addr(i) && Addr(i) + PAGE_SIZE <= end
  {
    AddrIndex(first);
    AddrIndex(last);
  }

  /** The bump scan at page i: where it looks, and where it goes from there. */
  lemma ScanAt(m: Mem, i: nat, a: nat)
    requires WellFormed(m) && a == Addr(i) < m.top
    ensures a >= MEM_BASE && Index(a) == i && a + PAGE_SIZE == Addr(i + 1)
    ensures i < |m.used| && FirstFree(m, i) == if m.used[i] then FirstFree(m, i + 1) else i
  {
    IndexAddr(i);
  }

  lemma ScanPast(m: Mem, i: nat)
    requires WellFormed(m) && Addr(i) >= m.top
    ensures Index(Addr(i)) == i && FirstFree(m, i) == i
  {
    IndexAddr(i);
  }

  lemma FirstRunStep(m: Mem, s: nat, count: nat)
    requires WellFormed(m) && Addr(s + count) <= m.top
    ensures FirstRun(m, s, count) == if RunFree(m, s, count) then Some(s) else FirstRun(m, s + 1, count)
  {
  }

  // ---- lemmas behind memory_init ------------------------------------------

  lemma FullByte(k: nat)
    requires k < 8
    ensures TestBit(0xFF, k)
  {
  }

  ghost predicate HighestSoFar(regions: seq<Region>, highest: nat) {
    && (forall r :: r in regions && Survives(r) ==> Min(r.base + r.length, MEM_CAP) <= highest)
    && (highest != 0 ==> highest > MEM_BASE
                         && exists r :: r in regions && Survives(r) && Min(r.base + r.length, MEM_CAP) == highest)
  }

  /** The code's clipping, done with wrap-around arithmetic, keeps a region exactly when it survives. */
  lemma ClippedRegion(r: Region)
    ensures var base := Max(r.base, MEM_BASE);
            var end := Min(Add64(r.base, r.length), MEM_CAP);
            && (base < end <==> Survives(r))
            && (Survives(r) ==> end == Min(r.base + r.length, MEM_CAP))
  {
  }

  lemma NothingCovered(r: Region)
    ensures !Survives(r) ==> forall i :: 0 <= i ==> !Covers(r, i)
  {
  }

  lemma CoveredBelowTop(regions: seq<Region>, top: nat)
    requires TopAtBoot(regions, top)
    ensures top <= MEM_CAP
    ensures forall i :: 0 <= i && FreeAtBoot(regions, i) ==> Addr(i) + PAGE_SIZE <= top
  {
    forall i, r | 0 <= i && r in regions && Covers(r, i)
      ensures Survives(r)
    {
    }
  }
}
