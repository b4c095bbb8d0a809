/**
  Isolation over every run: the physical frames ring 3 can reach through two
  living actors' page tables overlap only in .user_text, and no page table is
  reachable. The proof joins the allocator, spawn, reap, the program loader and
  the page tables.
 */
module Isolation {
  import opened Options
  import opened ActorTable
  import opened Kernel
  import opened PageFrames
  import opened Paging
  import Scheduling
  import Mailboxes

  // ---- who owns which page ------------------------------------------------------------

  ghost function StackPages(actors: seq<Actor>): set<nat> {
    set i | 0 <= i < |actors| && actors[i].stackPage != 0 :: actors[i].stackPage
  }

  ghost function RowPages(t: Table): set<nat> {
    set j | 0 <= j < ENTRIES && t[j].Pte? :: PAGE * t[j].frame
  }

  ghost function ProgramPages(sp: Spaces): set<nat> {
    set q, a | 0 <= q < |sp.pt1| && a in RowPages(sp.pt1[q]) :: a
  }

  ghost function OwnedPages(k: Kernel): set<nat> {
    StackPages(k.actors) + ProgramPages(k.spaces)
  }

  /** Every page somebody owns, and every page in `extra`, is off the allocator's hands. */
  ghost predicate PagesOwned(k: Kernel, extra: set<nat>) {
    LedgerInv(Ledger(k.mem, OwnedPages(k) + extra)) && extra !! OwnedPages(k)
  }

  predicate InWindow(p: nat) {
    COMMONS_END <= p && p + PAGE <= PRIVATE_WINDOW_END && p % PAGE == 0
  }

  ghost predicate StacksOk(actors: seq<Actor>) {
    && (forall i :: 0 <= i < |actors| && actors[i].stackPage != 0 ==> InWindow(actors[i].stackPage))
    && (forall i, j :: 0 <= i < j < |actors| && actors[i].stackPage != 0 ==> actors[i].stackPage != actors[j].stackPage)
  }

  /** Program frames lie above the private window, and no two pool tables share one. */
  ghost predicate PoolOk(sp: Spaces) {
    && (forall a :: a in ProgramPages(sp) ==> a >= DMA_BASE)
    && (forall q, r :: 0 <= q < r < |sp.pt1| ==> RowPages(sp.pt1[q]) !! RowPages(sp.pt1[r]))
  }

  /** A living actor runs on tables built for its own stack page. */
  ghost predicate TablesOk(actors: seq<Actor>, sp: Spaces)
    requires |sp.pml4| == |actors|
  {
    forall i :: 0 <= i < |actors| && !actors[i].state.Dead? ==>
      actors[i].stackPage != 0 && actors[i].cr3 == sp.Pml4(i) && Built(sp, i, actors[i].stackPage)
  }

  ghost predicate IsoInv(k: Kernel, extra: set<nat>) {
    && WF(k)
    && PagesOwned(k, extra)
    && StacksOk(k.actors)
    && PoolOk(k.spaces)
    && TablesOk(k.actors, k.spaces)
    && LayoutOk(k.spaces) && BootPdOk(k.spaces.bootPd)
  }

  // ---- the theorem about one state ------------------------------------------------------

  /** What a living actor's ring 3 code can reach: .user_text, its own stack, its own program. */
  lemma ReachOwn(k: Kernel, extra: set<nat>, i: nat, f: nat)
    requires IsoInv(k, extra) && SlotOk(k, i) && !k.actors[i].state.Dead? && Reaches(k.spaces, k.actors[i].cr3, f)
    ensures IsUserText(k.spaces, f) || OwnFrame(k, i, f)
  {
    var sp := k.spaces;
    ReachSound(sp, i, k.actors[i].stackPage, f);
    if exists q: nat :: UsesPool(sp, i, q) && InPool(sp, q, f) {
      var q: nat :| UsesPool(sp, i, q) && InPool(sp, q, f);
      assert PAGE * f in RowPages(sp.pt1[q]);
    }
  }

  lemma ProgramPageHigh(k: Kernel, extra: set<nat>, q: nat, a: nat)
    requires IsoInv(k, extra) && q < |k.spaces.pt1| && a in RowPages(k.spaces.pt1[q])
    ensures a >= DMA_BASE
  {
    assert a in ProgramPages(k.spaces);
  }

  /** Stacks lie below the program frames and are distinct; a pool table has one owner and its own frames. */
  lemma OwnFramesDiffer(k: Kernel, extra: set<nat>, i: nat, j: nat, f: nat)
    requires IsoInv(k, extra) && SlotOk(k, i) && SlotOk(k, j) && i != j
    requires !k.actors[i].state.Dead? && !k.actors[j].state.Dead?
    requires OwnFrame(k, i, f)
    ensures !OwnFrame(k, j, f)
  {
    forall q: nat | q < |k.spaces.pt1| && PAGE * f in RowPages(k.spaces.pt1[q])
      ensures PAGE * f >= DMA_BASE
    {
      ProgramPageHigh(k, extra, q, PAGE * f);
    }
    var lo, hi := if i < j then i else j, if i < j then j else i;
    assert k.actors[lo].stackPage != k.actors[hi].stackPage;
  }

  /** Frame f is slot i's stack, or a frame of a program table it owns. */
  ghost predicate OwnFrame(k: Kernel, i: nat, f: nat)
    requires SlotOk(k, i)
  {
    || PAGE * f == k.actors[i].stackPage
    || exists q: nat :: q < |k.spaces.pt1| && q < |k.spaces.owner| && k.spaces.owner[q] == i && PAGE * f in RowPages(k.spaces.pt1[q])
  }

  lemma Isolated(k: Kernel, extra: set<nat>, i: nat, j: nat, f: nat)
    requires IsoInv(k, extra) && SlotOk(k, i) && SlotOk(k, j) && i != j
    requires !k.actors[i].state.Dead? && !k.actors[j].state.Dead?
    requires Reaches(k.spaces, k.actors[i].cr3, f) && Reaches(k.spaces, k.actors[j].cr3, f)
    ensures IsUserText(k.spaces, f)
  {
    ReachOwn(k, extra, i, f);
    ReachOwn(k, extra, j, f);
    if OwnFrame(k, i, f) {
      OwnFramesDiffer(k, extra, i, j, f);
    }
  }

  /** An actor's own frames lie above the first megabyte. */
  lemma OwnFrameHigh(k: Kernel, extra: set<nat>, i: nat, f: nat)
    requires IsoInv(k, extra) && SlotOk(k, i) && !k.actors[i].state.Dead? && OwnFrame(k, i, f)
    ensures PAGE * f >= COMMONS_END
  {
    if PAGE * f != k.actors[i].stackPage {
      var q: nat :| q < |k.spaces.pt1| && PAGE * f in RowPages(k.spaces.pt1[q]);
      ProgramPageHigh(k, extra, q, PAGE * f);
    }
  }

  /** Tables lie below it, and outside .user_text. */
  lemma TablesLow(sp: Spaces, f: nat)
    requires sp.Sized() && LayoutOk(sp) && (TableAt(sp, f).Some? || IsBootTable(sp.layout, f))
    ensures PAGE * f < COMMONS_END && !IsUserText(sp, f)
  {
  }

  lemma TablesUnreachable(k: Kernel, extra: set<nat>, i: nat, f: nat)
    requires IsoInv(k, extra) && SlotOk(k, i) && !k.actors[i].state.Dead? && Reaches(k.spaces, k.actors[i].cr3, f)
    ensures TableAt(k.spaces, f).None? && !IsBootTable(k.spaces.layout, f)
  {
    ReachOwn(k, extra, i, f);
    if OwnFrame(k, i, f) {
      OwnFrameHigh(k, extra, i, f);
    }
    if TableAt(k.spaces, f).Some? || IsBootTable(k.spaces.layout, f) {
      TablesLow(k.spaces, f);
    }
  }

  // ---- steps that move no pages -----------------------------------------------------------

  /** Rows agree on pages, and nobody dead comes alive. */
  ghost predicate SamePages(k: Kernel, k': Kernel) {
    && k'.mem == k.mem && k'.spaces == k.spaces && |k'.actors| == |k.actors|
    && forall i :: 0 <= i < |k.actors| ==>
         && k'.actors[i].stackPage == k.actors[i].stackPage && k'.actors[i].cr3 == k.actors[i].cr3
         && (k.actors[i].state.Dead? ==> k'.actors[i].state.Dead?)
  }

  lemma SamePagesKeeps(k: Kernel, k': Kernel, extra: set<nat>)
    requires IsoInv(k, extra) && WF(k') && SamePages(k, k')
    ensures IsoInv(k', extra)
  {
    assert StackPages(k'.actors) == StackPages(k.actors);
  }

  /** Owning less is fine. */
  lemma LedgerShrinks(m: Mem, owned: set<nat>, owned': set<nat>)
    requires LedgerInv(Ledger(m, owned)) && owned' <= owned
    ensures LedgerInv(Ledger(m, owned'))
  {
  }

  lemma DropExtra(k: Kernel, extra: set<nat>)
    requires IsoInv(k, extra)
    ensures IsoInv(k, {})
  {
    LedgerShrinks(k.mem, OwnedPages(k) + extra, OwnedPages(k) + {});
  }

  // ---- reaping ------------------------------------------------------------------------------

  /** Giving a dead actor's stack page back: nobody else owned it. */
  lemma ReapOne(k: Kernel, i: nat)
    requires IsoInv(k, {}) && SlotOk(k, i) && k.actors[i].state.Dead? && k.actors[i].stackPage != 0
    ensures IsoInv(k.(mem := FreePage(k.mem, k.actors[i].stackPage),
                      actors := k.actors[i := k.actors[i].(stackPage := 0)]), {})
  {
    var p := k.actors[i].stackPage;
    var k' := k.(mem := FreePage(k.mem, p), actors := k.actors[i := k.actors[i].(stackPage := 0)]);
    var l := Ledger(k.mem, OwnedPages(k) + {});
    assert p in StackPages(k.actors);
    ApplyKeepsLedger(l, Free(p));
    assert StackPages(k'.actors) <= StackPages(k.actors) - {p} by {
      forall a | a in StackPages(k'.actors)
        ensures a in StackPages(k.actors) && a != p
      {
        var j :| 0 <= j < |k.actors| && k'.actors[j].stackPage != 0 && a == k'.actors[j].stackPage;
        assert k.actors[j].stackPage == a && j != i;
        assert j < i ==> k.actors[j].stackPage != k.actors[i].stackPage;
      }
    }
    assert p !in ProgramPages(k.spaces);
    LedgerShrinks(k'.mem, OwnedPages(k) + {} - {p}, OwnedPages(k') + {});
  }

  lemma ReapSlotKeeps(k: Kernel, i: nat)
    requires IsoInv(k, {}) && i < |k.actors|
    ensures IsoInv(ReapSlot(k, i), {}) && |ReapSlot(k, i).actors| == |k.actors|
  {
    if k.actors[i].state.Dead? && k.actors[i].stackPage != 0 {
      ReapOne(k, i);
    }
  }

  lemma {:induction false} ReapKeeps(k: Kernel, i: nat, r: Kernel)
    requires IsoInv(k, {}) && i <= |k.actors| && r == ReapFrom(k, i)
    ensures IsoInv(r, {})
    decreases |k.actors| - i
  {
    if i < |k.actors| {
      ReapSlotKeeps(k, i);
      ReapKeeps(ReapSlot(k, i), i + 1, r);
    }
  }

  lemma ScheduleKeeps(k: Kernel)
    requires IsoInv(k, {}) && !k.halted
    ensures IsoInv(ScheduleNext(k), {})
  {
    var k1 := ReapFrom(k, 0);
    ReapKeeps(k, 0, k1);
    SwitchKeeps(k1, PickFrom(k1.actors, if k.current < 0 then 0 else k.current, 1));
  }

  lemma SwitchKeeps(k: Kernel, next: int)
    requires IsoInv(k, {}) && (next == -1 || (SlotOk(k, next) && Runnable(k.actors[next])))
    ensures IsoInv(SwitchTo(k, next), {})
  {
    SamePagesKeeps(k, SwitchTo(k, next), {});
  }

  // ---- spawning -------------------------------------------------------------------------------

  /** Rebuilding one slot's tables leaves every other slot's as they were. */
  lemma CreateKeepsOthers(sp: Spaces, slot: nat, page: nat, i: nat, stack: nat)
    requires sp.Sized() && slot < |sp.pml4| && i != slot && Built(sp, i, stack)
    ensures Built(CreateSpace(sp, slot, page, STACK_SIZE).0, i, stack)
  {
    var sp' := CreateSpace(sp, slot, page, STACK_SIZE).0;
    if q: nat :| UsesPool(sp, i, q) {
      assert UsesPool(sp', i, q);
    }
  }

  lemma CreateBuilds(sp: Spaces, slot: nat, page: nat)
    requires sp.Sized() && slot < |sp.pml4| && 0 < sp.layout.pml4 && page % PAGE == 0
    requires CreateSpace(sp, slot, page, STACK_SIZE).1 != 0
    ensures var (sp', cr3) := CreateSpace(sp, slot, page, STACK_SIZE);
            InWindow(page) && cr3 == sp'.Pml4(slot) && Built(sp', slot, page)
  {
  }

  /** actor_spawn succeeded: the new actor's page was nobody's. */
  lemma SpawnBuilt(k: Kernel, slot: nat, entry: nat, extra: set<nat>, page: nat)
    requires IsoInv(k, extra) && slot < |k.actors| && AllocPage(k.mem).1 == Some(page)
    requires CreateSpace(k.spaces, slot, page, STACK_SIZE).1 != 0 && k.actors[slot].state.Dead?
    ensures var (sp', cr3) := CreateSpace(k.spaces, slot, page, STACK_SIZE);
            IsoInv(k.(mem := AllocPage(k.mem).0, spaces := sp',
                      actors := k.actors[slot := Fresh(k.actors[slot], cr3, page, entry)]), extra)
  {
    AllocPageRefines(k.mem);
    assert page % PAGE == 0;
    CreateBuilds(k.spaces, slot, page);
    var (sp', cr3) := CreateSpace(k.spaces, slot, page, STACK_SIZE);
    var a := Fresh(k.actors[slot], cr3, page, entry);
    SpawnOwned(k, slot, extra, page, a, sp');
    SpawnTables(k.actors, k.spaces, slot, page, a);
  }

  /** The new stack page was free, so it is now owned once. */
  lemma SpawnOwned(k: Kernel, slot: nat, extra: set<nat>, page: nat, a: Actor, sp': Spaces)
    requires PagesOwned(k, extra) && StacksOk(k.actors) && slot < |k.actors| && AllocPage(k.mem).1 == Some(page) && a.stackPage == page
    requires InWindow(page) && sp'.pt1 == k.spaces.pt1
    ensures var k' := k.(mem := AllocPage(k.mem).0, spaces := sp', actors := k.actors[slot := a]);
            PagesOwned(k', extra) && StacksOk(k'.actors)
  {
    ApplyKeepsLedger(Ledger(k.mem, OwnedPages(k) + extra), Alloc);
    AllocPageRefines(k.mem);
    var k' := k.(mem := AllocPage(k.mem).0, spaces := sp', actors := k.actors[slot := a]);
    assert ProgramPages(sp') == ProgramPages(k.spaces);
    SpawnStacks(k.actors, slot, a);
    LedgerShrinks(k'.mem, OwnedPages(k) + extra + {page}, OwnedPages(k') + extra);
  }

  lemma SpawnTables(actors: seq<Actor>, sp: Spaces, slot: nat, page: nat, a: Actor)
    requires sp.Sized() && |sp.pml4| == |actors| && slot < |actors| && TablesOk(actors, sp) && 0 < sp.layout.pml4
    requires page % PAGE == 0 && CreateSpace(sp, slot, page, STACK_SIZE).1 != 0
    requires a.stackPage == page && a.cr3 == CreateSpace(sp, slot, page, STACK_SIZE).1
    ensures TablesOk(actors[slot := a], CreateSpace(sp, slot, page, STACK_SIZE).0)
  {
    CreateBuilds(sp, slot, page);
    forall i | 0 <= i < |actors| && i != slot && !actors[i].state.Dead?
      ensures Built(CreateSpace(sp, slot, page, STACK_SIZE).0, i, actors[i].stackPage)
    {
      CreateKeepsOthers(sp, slot, page, i, actors[i].stackPage);
    }
  }

  lemma SpawnStacks(actors: seq<Actor>, slot: nat, a: Actor)
    requires StacksOk(actors) && slot < |actors| && InWindow(a.stackPage) && a.stackPage !in StackPages(actors)
    ensures StacksOk(actors[slot := a])
    ensures StackPages(actors[slot := a]) <= StackPages(actors) + {a.stackPage}
  {
    forall i | 0 <= i < |actors| && actors[i].stackPage != 0
      ensures actors[i].stackPage in StackPages(actors)
    {
    }
  }

  /** actor_spawn failed after taking a page: the page goes back, or is leaked, but is not owned twice. */
  lemma SpawnGaveBack(k: Kernel, extra: set<nat>, page: nat)
    requires IsoInv(k, extra) && AllocPage(k.mem).1 == Some(page)
    ensures IsoInv(k.(mem := FreePage(AllocPage(k.mem).0, page)), extra)
  {
    var l := Ledger(k.mem, OwnedPages(k) + extra);
    ApplyKeepsLedger(l, Alloc);
    var l1 := Apply(l, Alloc);
    ApplyKeepsLedger(l1, Free(page));
    LedgerShrinks(FreePage(AllocPage(k.mem).0, page), l1.owned - {page}, OwnedPages(k) + extra);
  }

  lemma SpawnFoundNone(k: Kernel, extra: set<nat>)
    requires IsoInv(k, extra) && AllocPage(k.mem).1.None?
    ensures IsoInv(k.(mem := AllocPage(k.mem).0), extra)
  {
    var l := Ledger(k.mem, OwnedPages(k) + extra);
    ApplyKeepsLedger(l, Alloc);
    assert Apply(l, Alloc).owned == l.owned;
  }

  lemma SpawnKeeps(k: Kernel, entry: nat, extra: set<nat>)
    requires IsoInv(k, extra)
    ensures IsoInv(Spawn(k, entry).0, extra)
    ensures Spawn(k, entry).1 >= 0 ==> !Spawn(k, entry).0.actors[Spawn(k, entry).1].state.Dead?
  {
    var slot := FirstDead(k.actors, 0);
    if slot < |k.actors| {
      var page := AllocPage(k.mem).1;
      if page.None? {
        SpawnFoundNone(k, extra);
      } else if CreateSpace(k.spaces, slot, page.value, STACK_SIZE).1 == 0 {
        SpawnGaveBack(k, extra, page.value);
      } else {
        SpawnBuilt(k, slot, entry, extra, page.value);
      }
    }
  }

  // ---- loading a program ------------------------------------------------------------------------

  lemma ProgramRowPages(phys: nat, count: nat)
    requires phys % PAGE == 0 && count <= ENTRIES
    ensures RowPages(ProgramRow(phys, PAGE * count)) == RunPages(phys, count)
  {
    var t := ProgramRow(phys, PAGE * count);
    forall j | 0 <= j < ENTRIES
      ensures t[j].Pte? <==> j < count
      ensures t[j].Pte? ==> PAGE * t[j].frame == phys + PAGE * j
    {
      assert t[j] == ProgramEntry(phys, PAGE * count, j);
    }
    forall a | a in RunPages(phys, count)
      ensures a in RowPages(t)
    {
      var j :| 0 <= j < count && a == phys + PAGE_SIZE * j;
      assert t[j].Pte? && PAGE * t[j].frame == a;
    }
  }

  lemma MapKeepsOthers(sp: Spaces, slot: nat, phys: nat, size: nat, i: nat, stack: nat)
    requires sp.Sized() && slot < |sp.pml4| && Built(sp, i, stack)
    ensures Built(MapProgram(sp, slot, phys, size).0, i, stack)
  {
    var (sp', ok) := MapProgram(sp, slot, phys, size);
    if ok && i == slot {
      assert UsesPool(sp', slot, PoolIndex(Owners(sp), slot));
    } else if q: nat :| UsesPool(sp, i, q) {
      assert UsesPool(sp', i, q);
    }
  }

  lemma MapPool(sp: Spaces, slot: nat, phys: nat, size: nat)
    requires sp.Sized() && PoolOk(sp) && ProgramPages(sp) !! RowPages(ProgramRow(phys, size))
    requires forall a :: a in RowPages(ProgramRow(phys, size)) ==> a >= DMA_BASE
    ensures PoolOk(MapProgram(sp, slot, phys, size).0)
    ensures ProgramPages(MapProgram(sp, slot, phys, size).0) <= ProgramPages(sp) + RowPages(ProgramRow(phys, size))
  {
    var (sp', ok) := MapProgram(sp, slot, phys, size);
    var row := ProgramRow(phys, size);
    var k := PoolIndex(Owners(sp), slot);
    forall q | 0 <= q < |sp.pt1|
      ensures RowPages(sp.pt1[q]) <= ProgramPages(sp)
    {
    }
    if ok {
      assert forall q :: 0 <= q < |sp.pt1| && q != k ==> sp'.pt1[q] == sp.pt1[q];
    } else {
      assert sp'.pt1 == sp.pt1;
    }
  }

  /** The claimed pages become the program's, and nobody else's. */
  lemma MapKeeps(k: Kernel, slot: nat, phys: nat, count: nat)
    requires slot < |k.actors| && phys % PAGE == 0 && phys >= DMA_BASE && count <= ENTRIES
    requires IsoInv(k, RunPages(phys, count))
    ensures IsoInv(k.(spaces := MapProgram(k.spaces, slot, phys, PAGE * count).0), {})
  {
    MapKeepsAs(k, slot, phys, count, MapProgram(k.spaces, slot, phys, PAGE * count).0);
  }

  lemma MapKeepsAs(k: Kernel, slot: nat, phys: nat, count: nat, sp': Spaces)
    requires slot < |k.actors| && phys % PAGE == 0 && phys >= DMA_BASE && count <= ENTRIES
    requires IsoInv(k, RunPages(phys, count)) && sp' == MapProgram(k.spaces, slot, phys, PAGE * count).0
    ensures IsoInv(k.(spaces := sp'), {})
  {
    MapOwned(k, slot, phys, count, sp');
    MapTables(k.actors, k.spaces, slot, phys, PAGE * count);
    MapShape(k.spaces, slot, phys, PAGE * count, sp');
    NewSpacesKeep(k, RunPages(phys, count), sp');
  }

  lemma MapShape(sp: Spaces, slot: nat, phys: nat, size: nat, sp': Spaces)
    requires sp.Sized() && slot < |sp.pml4| && sp' == MapProgram(sp, slot, phys, size).0
    ensures sp'.Sized() && |sp'.pml4| == |sp.pml4| && |sp'.pt1| == |sp.pt1| && sp'.layout == sp.layout && sp'.bootPd == sp.bootPd
  {
  }

  /** Tables of the same shape, with what the invariant says of them. */
  lemma NewSpacesKeep(k: Kernel, extra: set<nat>, sp': Spaces)
    requires IsoInv(k, extra) && sp'.Sized() && |sp'.pml4| == |k.spaces.pml4| && |sp'.pt1| == |k.spaces.pt1|
    requires sp'.layout == k.spaces.layout && sp'.bootPd == k.spaces.bootPd
    requires PagesOwned(k.(spaces := sp'), {}) && PoolOk(sp') && TablesOk(k.actors, sp')
    ensures IsoInv(k.(spaces := sp'), {})
  {
  }

  lemma MapOwned(k: Kernel, slot: nat, phys: nat, count: nat, sp': Spaces)
    requires k.spaces.Sized() && slot < |k.actors| && phys % PAGE == 0 && phys >= DMA_BASE && count <= ENTRIES
    requires PagesOwned(k, RunPages(phys, count)) && PoolOk(k.spaces) && sp' == MapProgram(k.spaces, slot, phys, PAGE * count).0
    ensures PagesOwned(k.(spaces := sp'), {}) && PoolOk(sp')
  {
    var k' := k.(spaces := sp');
    ProgramRowPages(phys, count);
    MapPool(k.spaces, slot, phys, PAGE * count);
    LedgerShrinks(k.mem, OwnedPages(k) + RunPages(phys, count), OwnedPages(k') + {});
  }

  lemma MapTables(actors: seq<Actor>, sp: Spaces, slot: nat, phys: nat, size: nat)
    requires sp.Sized() && |sp.pml4| == |actors| && slot < |actors| && TablesOk(actors, sp)
    ensures TablesOk(actors, MapProgram(sp, slot, phys, size).0)
  {
    forall i | 0 <= i < |actors| && !actors[i].state.Dead?
      ensures Built(MapProgram(sp, slot, phys, size).0, i, actors[i].stackPage)
    {
      MapKeepsOthers(sp, slot, phys, size, i, actors[i].stackPage);
    }
  }

  /** The tail of actor_spawn_program: map the program, or give the slot up again. */
  lemma MappedOrDropped(k1: Kernel, slot: nat, phys: nat, count: nat, k': Kernel)
    requires slot < |k1.actors| && phys % PAGE == 0 && phys >= DMA_BASE && count <= ENTRIES
    requires IsoInv(k1, RunPages(phys, count)) && WF(k')
    requires var k2 := k1.(spaces := MapProgram(k1.spaces, slot, phys, PAGE * count).0);
             k' == k2 || k' == k2.(actors := k2.actors[slot := k2.actors[slot].(state := Dead)])
    ensures IsoInv(k', {})
  {
    MapKeeps(k1, slot, phys, count);
    SamePagesKeeps(k1.(spaces := MapProgram(k1.spaces, slot, phys, PAGE * count).0), k', {});
  }

  lemma SpawnProgramKeeps(k: Kernel, phys: nat, count: nat, entryOffset: nat)
    requires IsoInv(k, RunPages(phys, count)) && phys % PAGE == 0 && phys >= DMA_BASE && count <= ENTRIES
    ensures IsoInv(SpawnProgram(k, phys, PAGE * count, entryOffset).0, {})
  {
    SpawnKeeps(k, PROGRAM_VBASE + entryOffset, RunPages(phys, count));
    var (k1, slot) := Spawn(k, PROGRAM_VBASE + entryOffset);
    if slot < 0 {
      DropExtra(k1, RunPages(phys, count));
    } else {
      MappedOrDropped(k1, slot, phys, count, SpawnProgram(k, phys, PAGE * count, entryOffset).0);
    }
  }

  lemma AdoptPages(k: Kernel, spawner: int, child: int)
    requires WF(k) && SlotOk(k, spawner) && SlotOk(k, child)
    ensures SamePages(k, Adopt(k, spawner, child))
  {
  }

  lemma SpawnChildKeeps(k: Kernel, entry: nat, k': Kernel)
    requires IsoInv(k, {}) && Started(k) && k' == SpawnChild(k, entry).0
    ensures IsoInv(k', {})
  {
    if MaySpawn(k) {
      SpawnKeeps(k, entry, {});
      var (k1, child) := Spawn(k, entry);
      ChildIs(k, entry);
      AdoptedKeeps(k1, k.current, child, k');
    }
  }

  lemma SpawnProgramChildKeeps(k: Kernel, phys: nat, count: nat, entryOffset: nat, k': Kernel)
    requires Started(k) && IsoInv(k, RunPages(phys, count)) && phys % PAGE == 0 && phys >= DMA_BASE && count <= ENTRIES
    requires k' == SpawnProgramChild(k, phys, PAGE * count, entryOffset).0
    ensures IsoInv(k', {})
  {
    if MaySpawn(k) {
      SpawnProgramKeeps(k, phys, count, entryOffset);
      var (k1, child) := SpawnProgram(k, phys, PAGE * count, entryOffset);
      ProgramChildIs(k, phys, PAGE * count, entryOffset);
      AdoptedKeeps(k1, k.current, child, k');
    } else {
      DropExtra(k, RunPages(phys, count));
    }
  }

  lemma ProgramChildIs(k: Kernel, phys: nat, size: nat, entryOffset: nat)
    requires Started(k) && MaySpawn(k)
    ensures var (k1, child) := SpawnProgram(k, phys, size, entryOffset);
            && |k1.actors| == |k.actors| && -1 <= child < |k1.actors|
            && SpawnProgramChild(k, phys, size, entryOffset).0 == if child < 0 then k1 else Adopt(k1, k.current, child)
  {
  }

  lemma ChildIs(k: Kernel, entry: nat)
    requires Started(k) && MaySpawn(k)
    ensures var (k1, child) := Spawn(k, entry);
            && |k1.actors| == |k.actors| && -1 <= child < |k1.actors|
            && SpawnChild(k, entry).0 == if child < 0 then k1 else Adopt(k1, k.current, child)
  {
  }

  lemma AdoptedKeeps(k: Kernel, spawner: int, child: int, k': Kernel)
    requires IsoInv(k, {}) && SlotOk(k, spawner) && -1 <= child < |k.actors|
    requires k' == if child < 0 then k else Adopt(k, spawner, child)
    ensures IsoInv(k', {})
  {
    if child >= 0 {
      AdoptKeeps(k, spawner, child);
    }
  }

  lemma AdoptKeeps(k: Kernel, spawner: int, child: int)
    requires IsoInv(k, {}) && SlotOk(k, spawner) && SlotOk(k, child)
    ensures IsoInv(Adopt(k, spawner, child), {})
  {
    AdoptPages(k, spawner, child);
    SamePagesKeeps(k, Adopt(k, spawner, child), {});
  }

  /** The loader's claim adds pages nobody owned. */
  lemma ClaimKeeps(k: Kernel, count: nat, phys: nat)
    requires IsoInv(k, {}) && DmaPages(k.mem, count).1 == Some(phys)
    ensures IsoInv(k.(mem := DmaPages(k.mem, count).0), RunPages(phys, count))
    ensures phys % PAGE == 0 && phys >= DMA_BASE
  {
    var l := Ledger(k.mem, OwnedPages(k) + {});
    var k' := k.(mem := DmaPages(k.mem, count).0);
    ApplyKeepsLedger(l, Contig(DMA_BASE, count));
    ClaimContigRefines(k.mem, DMA_BASE, count);
    assert Apply(l, Contig(DMA_BASE, count)).owned == OwnedPages(k) + RunPages(phys, count);
  }

  lemma LoadKeeps(k: Kernel, id: int, k': Kernel)
    requires IsoInv(k, {}) && Started(k) && k' == LoadProgram(k, id).0
    ensures IsoInv(k', {})
  {
    var bytes := StoreSpec.Read(k.store, id, Directory.OBJECT_MAX_BYTES);
    if bytes.Some? && ParseProgram(bytes.value).Some? {
      var image := ParseProgram(bytes.value).value;
      var pages := PagesFor(image.codeSize);
      var (mem, phys) := DmaPages(k.mem, pages);
      if phys.Some? {
        ClaimKeeps(k, pages, phys.value);
        var k1 := k.(mem := mem);
        assert pages * PAGE_SIZE == PAGE * pages;
        SpawnProgramChildKeeps(k1, phys.value, pages, image.entryOffset, k');
      }
    }
  }

  // ---- every step ---------------------------------------------------------------------------------

  lemma MessagePages(k: Kernel, e: Event)
    requires Enabled(k, e) && !Scheduling.Decides(k, e) && (e.SysSend? || e.SysReceive? || e.Resume?)
    ensures SamePages(k, Step(k, e).0)
  {
  }

  lemma TablePages(k: Kernel, e: Event)
    requires Enabled(k, e) && (e.BootGrant? || e.BootQuota? || e.BootWindow? || e.SysGrant? || e.SysTerminate?)
    ensures SamePages(k, Step(k, e).0)
  {
  }

  lemma QuietPages(k: Kernel, e: Event)
    requires Enabled(k, e) && !Scheduling.Decides(k, e)
    requires e.BootGrant? || e.BootQuota? || e.BootWindow? || e.SysGrant? || e.SysSend? || e.SysTerminate?
             || e.SysReceive? || e.Resume?
    ensures SamePages(k, Step(k, e).0)
  {
    if e.SysSend? || e.SysReceive? || e.Resume? {
      MessagePages(k, e);
    } else {
      TablePages(k, e);
    }
  }

  lemma StorePages(k: Kernel, e: Event)
    requires Enabled(k, e)
    requires e.BootCreate? || e.BootWrite? || e.SysDevice? || IsStoreCall(e)
    ensures SamePages(k, Step(k, e).0)
  {
    Mailboxes.TableKept(k, e);
  }

  lemma CreatePages(k: Kernel, e: Event)
    requires Enabled(k, e) && e.SysCreate?
    ensures SamePages(k, Step(k, e).0)
  {
    var k' := Step(k, e).0;
    if HasCap(Me(k), CAP_CREATE_OBJECT, 0) {
      assert k' == CreateByActor(k, e.name).0;
    } else {
      assert k' == k;
    }
  }

  lemma DecisionPages(k: Kernel, e: Event)
    requires Enabled(k, e) && Scheduling.Decides(k, e) && Mailboxes.CurrentLives(k)
    ensures SamePages(k, Scheduling.AtDecision(k, e))
  {
  }

  lemma DecisionKeeps(k: Kernel, e: Event)
    requires IsoInv(k, {}) && Scheduling.SchedInv(k) && Enabled(k, e) && Scheduling.Decides(k, e)
    ensures IsoInv(Step(k, e).0, {})
  {
    Scheduling.DecisionEffect(k, e);
    DecisionPages(k, e);
    var k0 := Scheduling.AtDecision(k, e);
    SamePagesKeeps(k, k0, {});
    ScheduleKeeps(k0);
  }

  /** Steps that touch neither pages nor tables. */
  lemma OtherKeeps(k: Kernel, e: Event)
    requires IsoInv(k, {}) && Enabled(k, e) && !Scheduling.Decides(k, e) && !e.BootSpawn? && !e.SysSpawn? && !e.SysSpawnProgram?
    ensures IsoInv(Step(k, e).0, {})
  {
    if e.BootCreate? || e.BootWrite? || e.SysDevice? || IsStoreCall(e) {
      StorePages(k, e);
    } else if e.SysCreate? {
      CreatePages(k, e);
    } else {
      QuietPages(k, e);
    }
    SamePagesKeeps(k, Step(k, e).0, {});
  }

  lemma BootSpawnKeeps(k: Kernel, e: Event)
    requires IsoInv(k, {}) && Enabled(k, e) && e.BootSpawn?
    ensures IsoInv(Step(k, e).0, {})
  {
    SpawnKeeps(k, e.entry, {});
    assert Step(k, e).0 == Spawn(k, e.entry).0;
  }

  lemma SpawnCallKeeps(k: Kernel, e: Event)
    requires IsoInv(k, {}) && Enabled(k, e) && e.SysSpawn?
    ensures IsoInv(Step(k, e).0, {})
  {
    SpawnChildKeeps(k, e.entry, Step(k, e).0);
  }

  lemma LoadCallKeeps(k: Kernel, e: Event)
    requires IsoInv(k, {}) && Enabled(k, e) && e.SysSpawnProgram?
    ensures IsoInv(Step(k, e).0, {})
  {
    if HasCap(Me(k), CAP_READ_OBJECT, e.id) {
      LoadKeeps(k, e.id, Step(k, e).0);
    } else {
      assert Step(k, e).0 == k;
    }
  }

  lemma StepKeepsIsolation(k: Kernel, e: Event)
    requires IsoInv(k, {}) && Scheduling.SchedInv(k) && Enabled(k, e)
    ensures IsoInv(Step(k, e).0, {})
  {
    if Scheduling.Decides(k, e) {
      DecisionKeeps(k, e);
    } else if e.BootSpawn? {
      BootSpawnKeeps(k, e);
    } else if e.SysSpawn? {
      SpawnCallKeeps(k, e);
    } else if e.SysSpawnProgram? {
      LoadCallKeeps(k, e);
    } else {
      OtherKeeps(k, e);
    }
  }

  lemma IsolationStep(ks: seq<Kernel>, es: seq<Event>, i: nat)
    requires IsRun(ks, es) && i < |es| && IsoInv(ks[i], {}) && Scheduling.SchedInv(ks[i])
    ensures IsoInv(ks[i + 1], {})
  {
    StepKeepsIsolation(ks[i], es[i]);
  }

  lemma {:induction false} RunKeepsIsolation(ks: seq<Kernel>, es: seq<Event>, n: nat)
    requires IsRun(ks, es) && Initial(ks[0]) && MachineOk(ks[0]) && n < |ks|
    ensures IsoInv(ks[n], {})
  {
    if n == 0 {
      InitialIsolation(ks[0]);
    } else {
      RunKeepsIsolation(ks, es, n - 1);
      Scheduling.InitialSched(ks[0]);
      Scheduling.RunSched(ks, es, n - 1);
      IsolationStep(ks, es, n - 1);
    }
  }

  /** What memory_init, the linker and boot.asm leave: a sound allocator, disjoint tables, an empty program pool. */
  ghost predicate MachineOk(k: Kernel) {
    && MemInv(k.mem) && LayoutOk(k.spaces) && BootPdOk(k.spaces.bootPd)
    && forall q, j :: 0 <= q < |k.spaces.pt1| && 0 <= j < ENTRIES ==> k.spaces.pt1[q][j].Absent?
  }

  lemma InitialIsolation(k: Kernel)
    requires Initial(k) && MachineOk(k)
    ensures IsoInv(k, {})
  {
    assert StackPages(k.actors) == {};
    assert ProgramPages(k.spaces) == {};
  }

  /**
    Isolation: in every state of every run, two different living actors can
    reach a common frame only if it belongs to .user_text, and nobody can reach
    a frame that holds a page table, those the kernel itself runs on included.
   */
  lemma ActorsAreIsolated(ks: seq<Kernel>, es: seq<Event>, n: nat, i: nat, j: nat, f: nat)
    requires IsRun(ks, es) && Initial(ks[0]) && MachineOk(ks[0]) && n < |ks|
    requires SlotOk(ks[n], i) && SlotOk(ks[n], j)
    requires !ks[n].actors[i].state.Dead? && !ks[n].actors[j].state.Dead?
    requires Reaches(ks[n].spaces, ks[n].actors[i].cr3, f)
    ensures TableAt(ks[n].spaces, f).None? && !IsBootTable(ks[n].spaces.layout, f)
    ensures i != j && Reaches(ks[n].spaces, ks[n].actors[j].cr3, f) ==> IsUserText(ks[n].spaces, f)
  {
    RunKeepsIsolation(ks, es, n);
    TablesUnreachable(ks[n], {}, i, f);
    if i != j && Reaches(ks[n].spaces, ks[n].actors[j].cr3, f) {
      Isolated(ks[n], {}, i, j, f);
    }
  }

  /** And each actor does reach its own stack page and .user_text, both writable, at their own addresses. */
  lemma ActorsReachTheirOwn(ks: seq<Kernel>, es: seq<Event>, n: nat, i: nat, f: nat)
    requires IsRun(ks, es) && Initial(ks[0]) && MachineOk(ks[0]) && n < |ks|
    requires SlotOk(ks[n], i) && !ks[n].actors[i].state.Dead?
    requires IsUserText(ks[n].spaces, f) || PAGE * f == ks[n].actors[i].stackPage
    ensures Walk(ks[n].spaces, ks[n].actors[i].cr3, f) == Mapped(f, true, true)
  {
    RunKeepsIsolation(ks, es, n);
    ReachComplete(ks[n].spaces, i, ks[n].actors[i].stackPage, f);
  }
}
