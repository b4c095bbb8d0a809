/**
  Per-actor page tables (hal/x86_64/paging.c) as values, and what the CPU makes
  of them: a four-level walk whose access rights are the AND over every level
  (section 4.6 of the Intel SDM, volume 3A).

  Physical and virtual memory are counted in 4KB pages here: physical address a
  lies in frame a / 4096, and a walk translates a virtual page to a frame (the
  low 12 bits of an address pass through unchanged).
 */
module Paging {
  import opened Options

  const PAGE: nat := 4096
  const ENTRIES: nat := 512
  const COMMONS_END: nat := 0x100000
  const PRIVATE_WINDOW_END: nat := 0x200000
  const PROGRAM_VBASE: nat := 0x10000000
  const PROGRAM_WINDOW_MAX: nat := 0x200000
  const PROGRAM_PD: nat := 128        // PROGRAM_VBASE / 2MB
  const BOOT_TABLES: nat := 0x90      // frame of BOOT_PML4_PHYS_BASE; PDPT and page directory follow
  const BOOT_TABLE_COUNT: nat := 3
  const VPAGES: nat := 0x10_0000_0000 // 48-bit virtual addresses

  /** A table entry; the source writes address | 0x7 for User, | 0x3 for Supervisor. */
  datatype Pte = Absent | Pte(frame: nat, writable: bool, user: bool, huge: bool)

  function User(frame: nat): Pte { Pte(frame, true, true, false) }
  function Supervisor(frame: nat): Pte { Pte(frame, true, false, false) }

  type Table = t: seq<Pte> | |t| == ENTRIES witness seq(ENTRIES, i => Absent)

  /** Where the linker put .user_text (bytes) and the table arrays (frames). */
  datatype Layout = Layout(userTextStart: nat, userTextEnd: nat,
                           pml4: nat, pdpt: nat, pd: nat, pt0: nat, pt1: nat, lapicPd: nat, lapicPt: nat)

  /**
    The table arrays: one row per actor slot, and a pool of program tables with
    the slot each entry belongs to (-1: free). `bootPd` is the page directory
    boot.asm left behind.
   */
  datatype Spaces = Spaces(layout: Layout, bootPd: Table,
                           pml4: seq<Table>, pdpt: seq<Table>, pd: seq<Table>, pt0: seq<Table>,
                           pt1: seq<Table>, owner: seq<int>, poolReady: bool)
  {
    predicate Sized() {
      && |pdpt| == |pml4| && |pd| == |pml4| && |pt0| == |pml4|
      && |owner| == |pt1|
    }

    function Pml4(s: nat): nat { layout.pml4 + s }
    function Pdpt(s: nat): nat { layout.pdpt + s }
    function Pd(s: nat): nat { layout.pd + s }
    function Pt0(s: nat): nat { layout.pt0 + s }
    function Pt1(k: nat): nat { layout.pt1 + k }
  }

  predicate Apart(a: nat, na: nat, b: nat, nb: nat) {
    a + na <= b || b + nb <= a
  }

  predicate ApartFromText(l: Layout, a: nat, na: nat) {
    PAGE * (a + na) <= l.userTextStart || l.userTextEnd <= PAGE * a
  }

  /** The linker's promises: .user_text page aligned, everything below 1MB and non-overlapping. */
  predicate LayoutOk(sp: Spaces) {
    var l := sp.layout;
    var n := |sp.pml4|;
    var p := |sp.pt1|;
    && l.userTextStart <= l.userTextEnd <= COMMONS_END
    && l.userTextStart % PAGE == 0 && l.userTextEnd % PAGE == 0
    && 0 < l.pml4
    && PAGE * (l.pml4 + n) <= COMMONS_END && PAGE * (l.pdpt + n) <= COMMONS_END
    && PAGE * (l.pd + n) <= COMMONS_END && PAGE * (l.pt0 + n) <= COMMONS_END && PAGE * (l.pt1 + p) <= COMMONS_END
    && Apart(l.pml4, n, l.pdpt, n) && Apart(l.pml4, n, l.pd, n) && Apart(l.pml4, n, l.pt0, n) && Apart(l.pml4, n, l.pt1, p)
    && Apart(l.pdpt, n, l.pd, n) && Apart(l.pdpt, n, l.pt0, n) && Apart(l.pdpt, n, l.pt1, p)
    && Apart(l.pd, n, l.pt0, n) && Apart(l.pd, n, l.pt1, p) && Apart(l.pt0, n, l.pt1, p)
    && ApartFromText(l, l.pml4, n) && ApartFromText(l, l.pdpt, n) && ApartFromText(l, l.pd, n)
    && ApartFromText(l, l.pt0, n) && ApartFromText(l, l.pt1, p)
    && BootTablesApart(l, n, p)
  }

  /**
    The tables the kernel runs on when no actor does: the PML4, PDPT and page
    directory boot.asm built, and the two tables hal_map_lapic_mmio links into them.
   */
  predicate IsBootTable(l: Layout, f: nat) {
    BOOT_TABLES <= f < BOOT_TABLES + BOOT_TABLE_COUNT || f == l.lapicPd || f == l.lapicPt
  }

  predicate ApartFromTables(l: Layout, n: nat, p: nat, a: nat, na: nat) {
    && Apart(l.pml4, n, a, na) && Apart(l.pdpt, n, a, na) && Apart(l.pd, n, a, na) && Apart(l.pt0, n, a, na)
    && Apart(l.pt1, p, a, na) && ApartFromText(l, a, na) && PAGE * (a + na) <= COMMONS_END
  }

  /** boot.asm's lie outside the kernel image, the other two are arrays of their own in it. */
  predicate BootTablesApart(l: Layout, n: nat, p: nat) {
    && ApartFromTables(l, n, p, BOOT_TABLES, BOOT_TABLE_COUNT)
    && ApartFromTables(l, n, p, l.lapicPd, 1) && ApartFromTables(l, n, p, l.lapicPt, 1)
    && l.lapicPd != l.lapicPt
    && Apart(l.lapicPd, 1, BOOT_TABLES, BOOT_TABLE_COUNT) && Apart(l.lapicPt, 1, BOOT_TABLES, BOOT_TABLE_COUNT)
  }

  /** Frame f belongs to .user_text. */
  predicate IsUserText(sp: Spaces, f: nat) {
    sp.layout.userTextStart <= PAGE * f < sp.layout.userTextEnd
  }

  // ---- the hardware's view ------------------------------------------------

  function Row(base: nat, rows: seq<Table>, f: nat): Option<Table> {
    if base <= f < base + |rows| then Some(rows[f - base]) else None
  }

  /** The page table stored in physical frame f, if f holds one of the tables. */
  function TableAt(sp: Spaces, f: nat): Option<Table> {
    var l := sp.layout;
    if Row(l.pml4, sp.pml4, f).Some? then Row(l.pml4, sp.pml4, f)
    else if Row(l.pdpt, sp.pdpt, f).Some? then Row(l.pdpt, sp.pdpt, f)
    else if Row(l.pd, sp.pd, f).Some? then Row(l.pd, sp.pd, f)
    else if Row(l.pt0, sp.pt0, f).Some? then Row(l.pt0, sp.pt0, f)
    else Row(l.pt1, sp.pt1, f)
  }

  /** The four 9-bit indices the CPU takes from a virtual page number. */
  datatype VPage = VPage(i4: nat, i3: nat, i2: nat, i1: nat)

  function Split(vpage: nat): (v: VPage)
    ensures v.i4 < ENTRIES && v.i3 < ENTRIES && v.i2 < ENTRIES && v.i1 < ENTRIES
  {
    VPage(vpage / 0x800_0000 % ENTRIES, vpage / 0x4_0000 % ENTRIES, vpage / 0x200 % ENTRIES, vpage % ENTRIES)
  }

  /** Stray: the walk left the kernel's tables and interprets unrelated memory. */
  datatype Translation = Fault | Stray | Mapped(frame: nat, user: bool, writable: bool)

  function WalkPt(t: Table, i: nat, user: bool, writable: bool): Translation
    requires i < ENTRIES
  {
    match t[i]
    case Absent => Fault
    case Pte(f, w, u, _) => Mapped(f, user && u, writable && w)
  }

  /** A huge entry maps 2MB at once; the lowest index then picks the frame inside it. */
  function WalkPd(sp: Spaces, t: Table, i: nat, j: nat, user: bool, writable: bool): Translation
    requires i < ENTRIES && j < ENTRIES
  {
    match t[i]
    case Absent => Fault
    case Pte(f, w, u, huge) =>
      if huge then Mapped(f + j, user && u, writable && w)
      else match TableAt(sp, f)
        case None => Stray
        case Some(next) => WalkPt(next, j, user && u, writable && w)
  }

  function Walk(sp: Spaces, cr3: nat, vpage: nat): Translation {
    var v := Split(vpage);
    match TableAt(sp, cr3)
    case None => Stray
    case Some(t4) =>
      match t4[v.i4]
      case Absent => Fault
      case Pte(f4, w4, u4, _) =>
        match TableAt(sp, f4)
        case None => Stray
        case Some(t3) =>
          match t3[v.i3]
          case Absent => Fault
          case Pte(f3, w3, u3, _) =>
            match TableAt(sp, f3)
            case None => Stray
            case Some(t2) => WalkPd(sp, t2, v.i2, v.i1, u4 && u3, w4 && w3)
  }

  /** Ring 3, running on cr3, can touch the frame (anything at all, if a walk strays). */
  ghost predicate Reaches(sp: Spaces, cr3: nat, frame: nat) {
    exists vpage: nat :: vpage < VPAGES && ReachesAt(sp, cr3, vpage, frame)
  }

  predicate ReachesAt(sp: Spaces, cr3: nat, vpage: nat, frame: nat) {
    var w := Walk(sp, cr3, vpage);
    w.Stray? || (w.Mapped? && w.user && w.frame == frame)
  }

  // ---- hal_address_space_create -------------------------------------------

  /** A table whose only entry is a pointer to the next level. */
  function Pointer(f: nat): Table {
    seq(ENTRIES, i => if i == 0 then User(f) else Absent)
  }

  function CommonsEntry(sp: Spaces, j: nat): Pte {
    if IsUserText(sp, j) then User(j) else Supervisor(j)
  }

  /** An unaligned base only sets further low bits of the entry: the frame and the rights are the same. */
  function Pt0Entry(sp: Spaces, base: nat, size: nat, j: nat): Pte {
    if PAGE * j < COMMONS_END then CommonsEntry(sp, j)
    else if base <= PAGE * j + base % PAGE < base + size then User(j)
    else Absent
  }

  function Pt0Row(sp: Spaces, base: nat, size: nat): Table {
    seq(ENTRIES, j requires j >= 0 => Pt0Entry(sp, base, size, j))
  }

  function PdRow(sp: Spaces, slot: nat): Table {
    var boot: seq<Pte> := sp.bootPd;
    boot[0 := User(sp.Pt0(slot))]
  }

  /** Rebuilds slot's tables around the private byte range; cr3 0 means refused. */
  function CreateSpace(sp: Spaces, slot: int, base: nat, size: nat): (r: (Spaces, nat))
    requires sp.Sized()
  {
    if slot < 0 || slot >= |sp.pml4| then (sp, 0)
    else if base < COMMONS_END || base + size > PRIVATE_WINDOW_END then (sp, 0)
    else
      (sp.(pml4 := sp.pml4[slot := Pointer(sp.Pdpt(slot))],
           pdpt := sp.pdpt[slot := Pointer(sp.Pd(slot))],
           pd := sp.pd[slot := PdRow(sp, slot)],
           pt0 := sp.pt0[slot := Pt0Row(sp, base, size)]),
       sp.Pml4(slot))
  }

  // ---- hal_address_space_map_program --------------------------------------

  /** First pool entry that is free or already belongs to the slot; |owner| if none. */
  function PoolIndex(owner: seq<int>, slot: int): (k: nat)
    ensures k <= |owner|
    ensures k < |owner| ==> owner[k] == slot || owner[k] == -1
    ensures forall i :: 0 <= i < k ==> owner[i] != slot && owner[i] != -1
  {
    if owner == [] then 0
    else if owner[0] == slot || owner[0] == -1 then 0
    else 1 + PoolIndex(owner[1..], slot)
  }

  function ProgramEntry(phys: nat, size: nat, j: nat): Pte {
    if PAGE * j < size then User(phys / PAGE + j) else Absent
  }

  function ProgramRow(phys: nat, size: nat): Table {
    seq(ENTRIES, j requires j >= 0 => ProgramEntry(phys, size, j))
  }

  function Owners(sp: Spaces): (o: seq<int>)
    ensures |o| == |sp.owner|
  {
    if sp.poolReady then sp.owner else seq(|sp.owner|, i => -1)
  }

  function MapProgram(sp: Spaces, slot: int, phys: nat, size: nat): (r: (Spaces, bool))
    requires sp.Sized()
  {
    if slot < 0 || slot >= |sp.pml4| || size == 0 || size > PROGRAM_WINDOW_MAX then (sp, false)
    else
      var owner := Owners(sp);
      var k := PoolIndex(owner, slot);
      if k == |owner| then (sp.(owner := owner, poolReady := true), false)
      else
        var pd: seq<Pte> := sp.pd[slot];
        (sp.(owner := owner[k := slot], poolReady := true,
             pt1 := sp.pt1[k := ProgramRow(phys, size)],
             pd := sp.pd[slot := pd[PROGRAM_PD := User(sp.Pt1(k))]]),
         true)
  }

  // ---- what a built address space lets ring 3 reach -------------------------

  /** boot.asm maps 2MB pages without the user bit. */
  predicate BootPdOk(pd: Table) {
    forall j :: 1 <= j < ENTRIES && pd[j].Pte? ==> !pd[j].user && pd[j].huge
  }

  /** slot's page directory points at pool table k for the program window. */
  predicate UsesPool(sp: Spaces, slot: nat, k: nat)
    requires sp.Sized() && slot < |sp.pml4|
  {
    k < |sp.pt1| && sp.pd[slot][PROGRAM_PD] == User(sp.Pt1(k)) && sp.poolReady && sp.owner[k] == slot
  }

  /** slot's rows are what CreateSpace built for one stack page, plus possibly a program window. */
  ghost predicate Built(sp: Spaces, slot: nat, stack: nat) {
    && sp.Sized() && slot < |sp.pml4|
    && COMMONS_END <= stack && stack + PAGE <= PRIVATE_WINDOW_END && stack % PAGE == 0
    && sp.pml4[slot] == Pointer(sp.Pdpt(slot))
    && sp.pdpt[slot] == Pointer(sp.Pd(slot))
    && sp.pt0[slot] == Pt0Row(sp, stack, PAGE)
    && sp.pd[slot][0] == User(sp.Pt0(slot))
    && (forall j :: 1 <= j < ENTRIES && j != PROGRAM_PD ==> sp.pd[slot][j] == sp.bootPd[j])
    && (sp.pd[slot][PROGRAM_PD] == sp.bootPd[PROGRAM_PD] || exists k: nat :: UsesPool(sp, slot, k))
  }

  lemma TablesFound(sp: Spaces, s: nat)
    requires sp.Sized() && LayoutOk(sp) && s < |sp.pml4|
    ensures TableAt(sp, sp.Pml4(s)) == Some(sp.pml4[s])
    ensures TableAt(sp, sp.Pdpt(s)) == Some(sp.pdpt[s])
    ensures TableAt(sp, sp.Pd(s)) == Some(sp.pd[s])
    ensures TableAt(sp, sp.Pt0(s)) == Some(sp.pt0[s])
  {
  }

  lemma PoolFound(sp: Spaces, k: nat)
    requires sp.Sized() && LayoutOk(sp) && k < |sp.pt1|
    ensures TableAt(sp, sp.Pt1(k)) == Some(sp.pt1[k])
  {
  }

  /** Only the first 1GB is mapped at all, and it goes through slot's own page directory. */
  lemma WalkToPd(sp: Spaces, slot: nat, stack: nat, vpage: nat)
    requires LayoutOk(sp) && Built(sp, slot, stack)
    ensures var v := Split(vpage);
            Walk(sp, sp.Pml4(slot), vpage) ==
            if v.i4 != 0 || v.i3 != 0 then Fault else WalkPd(sp, sp.pd[slot], v.i2, v.i1, true, true)
  {
    TablesFound(sp, slot);
  }

  /** In the first 2MB every translation is the identity; ring 3 gets .user_text and its stack page. */
  lemma WalkLow(sp: Spaces, slot: nat, stack: nat, j: nat)
    requires LayoutOk(sp) && Built(sp, slot, stack) && j < ENTRIES
    ensures var w := WalkPd(sp, sp.pd[slot], 0, j, true, true);
            && !w.Stray?
            && (w.Mapped? && w.user <==> IsUserText(sp, j) || j == stack / PAGE)
            && (w.Mapped? ==> w.frame == j && w.writable)
  {
    TablesFound(sp, slot);
    assert sp.pt0[slot][j] == Pt0Entry(sp, stack, PAGE, j);
  }

  /** Outside the first 2MB and the program window, ring 3 reaches nothing. */
  lemma WalkCommons(sp: Spaces, slot: nat, stack: nat, i: nat, j: nat)
    requires LayoutOk(sp) && Built(sp, slot, stack) && BootPdOk(sp.bootPd)
    requires 1 <= i < ENTRIES && j < ENTRIES
    requires i != PROGRAM_PD || sp.pd[slot][PROGRAM_PD] == sp.bootPd[PROGRAM_PD]
    ensures var w := WalkPd(sp, sp.pd[slot], i, j, true, true); !w.Stray? && !(w.Mapped? && w.user)
  {
  }

  /** The program window is exactly the pool table's entries. */
  lemma WalkProgram(sp: Spaces, slot: nat, stack: nat, k: nat, j: nat)
    requires LayoutOk(sp) && Built(sp, slot, stack)
    requires j < ENTRIES && UsesPool(sp, slot, k)
    ensures WalkPd(sp, sp.pd[slot], PROGRAM_PD, j, true, true) == WalkPt(sp.pt1[k], j, true, true)
  {
    PoolFound(sp, k);
  }

  /** Pool table k maps the frame. */
  predicate InPool(sp: Spaces, k: nat, frame: nat) {
    k < |sp.pt1| && exists j :: 0 <= j < ENTRIES && sp.pt1[k][j].Pte? && sp.pt1[k][j].frame == frame
  }

  /**
    Everything ring 3 can reach through a built address space: frames of
    .user_text, the stack page, and the frames in the program table it uses.
   */
  lemma ReachSound(sp: Spaces, slot: nat, stack: nat, frame: nat)
    requires LayoutOk(sp) && Built(sp, slot, stack) && BootPdOk(sp.bootPd)
    requires Reaches(sp, sp.Pml4(slot), frame)
    ensures || IsUserText(sp, frame)
            || frame == stack / PAGE
            || exists k: nat :: UsesPool(sp, slot, k) && InPool(sp, k, frame)
  {
    var vpage: nat :| vpage < VPAGES && ReachesAt(sp, sp.Pml4(slot), vpage, frame);
    var v := Split(vpage);
    WalkToPd(sp, slot, stack, vpage);
    if v.i2 == 0 {
      WalkLow(sp, slot, stack, v.i1);
    } else if v.i2 == PROGRAM_PD && sp.pd[slot][PROGRAM_PD] != sp.bootPd[PROGRAM_PD] {
      var k: nat :| UsesPool(sp, slot, k);
      WalkProgram(sp, slot, stack, k, v.i1);
      assert InPool(sp, k, frame);
    } else {
      WalkCommons(sp, slot, stack, v.i2, v.i1);
    }
  }

  /** The actor does reach its own stack page and all of .user_text, each at its own address. */
  lemma ReachComplete(sp: Spaces, slot: nat, stack: nat, frame: nat)
    requires LayoutOk(sp) && Built(sp, slot, stack)
    requires IsUserText(sp, frame) || frame == stack / PAGE
    ensures Walk(sp, sp.Pml4(slot), frame) == Mapped(frame, true, true)
    ensures Reaches(sp, sp.Pml4(slot), frame)
  {
    assert Split(frame) == VPage(0, 0, 0, frame);
    WalkToPd(sp, slot, stack, frame);
    WalkLow(sp, slot, stack, frame);
    assert ReachesAt(sp, sp.Pml4(slot), frame, frame);
  }

  /**
    The first 2MB of every address space, exactly: all of the kernel's megabyte
    at its own addresses, open to ring 3 only in .user_text, then the stack page,
    and nothing else. So the kernel keeps running whoever's tables are loaded.
   */
  lemma LowExact(sp: Spaces, slot: nat, stack: nat, j: nat)
    requires LayoutOk(sp) && Built(sp, slot, stack) && j < ENTRIES
    ensures Walk(sp, sp.Pml4(slot), j) ==
            if PAGE * j < COMMONS_END then Mapped(j, IsUserText(sp, j), true)
            else if j == stack / PAGE then Mapped(j, true, true)
            else Fault
  {
    assert Split(j) == VPage(0, 0, 0, j);
    WalkToPd(sp, slot, stack, j);
    TablesFound(sp, slot);
    assert sp.pt0[slot][j] == Pt0Entry(sp, stack, PAGE, j);
  }

  /** Above it and outside the program window the boot directory's huge pages show, as in every other address space. */
  lemma CommonsExact(sp: Spaces, slot: nat, stack: nat, i: nat, j: nat)
    requires LayoutOk(sp) && Built(sp, slot, stack) && BootPdOk(sp.bootPd) && 1 <= i < ENTRIES && i != PROGRAM_PD && j < ENTRIES
    ensures Walk(sp, sp.Pml4(slot), ENTRIES * i + j) ==
            match sp.bootPd[i]
            case Absent => Fault
            case Pte(f, w, _, _) => Mapped(f + j, false, w)
  {
    assert Split(ENTRIES * i + j) == VPage(0, 0, i, j) by {
      assert (ENTRIES * i + j) / 0x200 == i && (ENTRIES * i + j) % ENTRIES == j;
    }
    WalkToPd(sp, slot, stack, ENTRIES * i + j);
  }

  /** Page p of a loaded image is what ring 3 sees p pages above PROGRAM_VBASE. */
  lemma ProgramVisible(sp: Spaces, slot: nat, stack: nat, k: nat, phys: nat, size: nat, p: nat)
    requires LayoutOk(sp) && Built(sp, slot, stack) && UsesPool(sp, slot, k)
    requires size <= PROGRAM_WINDOW_MAX && sp.pt1[k] == ProgramRow(phys, size) && p < ENTRIES
    ensures Walk(sp, sp.Pml4(slot), PROGRAM_VBASE / PAGE + p) ==
            if PAGE * p < size then Mapped(phys / PAGE + p, true, true) else Fault
  {
    var vpage := PROGRAM_VBASE / PAGE + p;
    assert Split(vpage) == VPage(0, 0, PROGRAM_PD, p);
    WalkToPd(sp, slot, stack, vpage);
    WalkProgram(sp, slot, stack, k, p);
    assert sp.pt1[k][p] == ProgramEntry(phys, size, p);
  }
}
