/**
  core/loader.c from end to end: the header it accepts, byte by byte, when a
  program starts, where, and on which frames.
 */
module Loader {
  import opened Options
  import opened Words
  import opened ActorTable
  import opened Kernel
  import opened PageFrames
  import Directory
  import Isolation
  import Paging
  import Spawning
  import StoreSpec

  /** Magic, entry offset and code size, four bytes each. */
  function ProgramHeader(entryOffset: nat, codeSize: nat): (h: seq<byte>)
    ensures |h| == HEADER_SIZE
  {
    LittleEndian(PROGRAM_MAGIC, 4) + LittleEndian(entryOffset, 4) + LittleEndian(codeSize, 4)
  }

  lemma WindowFitsWord()
    ensures Pow256(4) == 0x1_0000_0000
  {
    assert Pow256(1) == 256;
    assert Pow256(2) == 65536;
    assert Pow256(3) == 16777216;
  }

  /** Every program that fits the window, with its entry inside, is accepted as what it says it is. */
  lemma ProgramRoundTrip(entryOffset: nat, code: seq<byte>, rest: seq<byte>)
    requires 0 < |code| <= Paging.PROGRAM_WINDOW_MAX && entryOffset < |code|
    ensures ParseProgram(ProgramHeader(entryOffset, |code|) + code + rest) == Some(Image(entryOffset, |code|))
  {
    var h := ProgramHeader(entryOffset, |code|);
    var bytes := h + code + rest;
    assert bytes[0..4] == LittleEndian(PROGRAM_MAGIC, 4);
    assert bytes[4..8] == LittleEndian(entryOffset, 4);
    assert bytes[8..12] == LittleEndian(|code|, 4);
    WindowFitsWord();
    LittleEndianRoundTrip(PROGRAM_MAGIC, 4);
    LittleEndianRoundTrip(entryOffset, 4);
    LittleEndianRoundTrip(|code|, 4);
  }

  /** And nothing else is: an accepted object starts with exactly that header, and holds all its code. */
  lemma ProgramFaithful(bytes: seq<byte>)
    requires ParseProgram(bytes).Some?
    ensures var image := ParseProgram(bytes).value;
            && 0 < image.codeSize <= Paging.PROGRAM_WINDOW_MAX && image.entryOffset < image.codeSize
            && HEADER_SIZE + image.codeSize <= |bytes|
            && bytes[..HEADER_SIZE] == ProgramHeader(image.entryOffset, image.codeSize)
  {
    FromLittleEndianRoundTrip(bytes[0..4]);
    FromLittleEndianRoundTrip(bytes[4..8]);
    FromLittleEndianRoundTrip(bytes[8..12]);
    assert bytes[..12] == bytes[0..4] + bytes[4..8] + bytes[8..12];
  }

  // ---- when a program starts -----------------------------------------------------------------------

  /** The object reads as this program. */
  predicate IsProgram(k: Kernel, id: int, entryOffset: nat, code: seq<byte>, rest: seq<byte>)
    requires WF(k)
  {
    && 0 < |code| <= Paging.PROGRAM_WINDOW_MAX && entryOffset < |code|
    && StoreSpec.Read(k.store, id, Directory.OBJECT_MAX_BYTES) == Some(ProgramHeader(entryOffset, |code|) + code + rest)
  }

  /** n is the number of 4KB pages this many bytes need. */
  predicate PagesNeeded(size: nat, n: nat) {
    4096 * (n - 1) < size <= 4096 * n
  }

  lemma PagesForIs(size: nat, n: nat)
    requires PagesNeeded(size, n)
    ensures PagesFor(size) == n
  {
    assert size + 4095 == 4096 * n + (size - 4096 * (n - 1) - 1);
    QuotientUnique(size + 4095, 4096, n, size - 4096 * (n - 1) - 1);
  }

  /** The slot the next spawn takes. */
  predicate LowestDead(k: Kernel, s: nat) {
    SlotOk(k, s) && k.actors[s].state.Dead? && forall j :: 0 <= j < s ==> !k.actors[j].state.Dead?
  }

  /** There is a program table that is free or the slot's own. */
  ghost predicate PoolHas(sp: Paging.Spaces, slot: int) {
    exists q :: PoolEntry(sp, slot, q)
  }

  /** Entry q can be the slot's; the pool starts out free. */
  predicate PoolEntry(sp: Paging.Spaces, slot: int, q: int) {
    0 <= q < |sp.owner| && (!sp.poolReady || sp.owner[q] == -1 || sp.owner[q] == slot)
  }

  lemma SamePool(sp: Paging.Spaces, sp': Paging.Spaces, slot: int)
    requires sp'.owner == sp.owner && sp'.poolReady == sp.poolReady
    ensures PoolHas(sp', slot) <==> PoolHas(sp, slot)
  {
    assert forall q :: PoolEntry(sp', slot, q) <==> PoolEntry(sp, slot, q);
  }

  lemma PoolIndexIff(sp: Paging.Spaces, slot: int)
    ensures Paging.PoolIndex(Paging.Owners(sp), slot) < |sp.owner| <==> PoolHas(sp, slot)
  {
    var o := Paging.Owners(sp);
    var i := Paging.PoolIndex(o, slot);
    if i < |o| {
      assert PoolEntry(sp, slot, i);
    }
    if q :| PoolEntry(sp, slot, q) {
      assert o[q] == slot || o[q] == -1;
    }
  }

  lemma MapSucceedsIff(sp: Paging.Spaces, slot: nat, phys: nat, size: nat)
    requires sp.Sized() && slot < |sp.pml4| && 0 < size <= Paging.PROGRAM_WINDOW_MAX
    ensures Paging.MapProgram(sp, slot, phys, size).1 <==> PoolHas(sp, slot)
  {
    PoolIndexIff(sp, slot);
  }

  /** actor_spawn leaves the pool alone. */
  lemma SpawnKeepsPool(k: Kernel, entry: nat)
    requires WF(k)
    ensures var sp, sp' := k.spaces, Spawn(k, entry).0.spaces;
            sp'.owner == sp.owner && sp'.poolReady == sp.poolReady && sp'.pt1 == sp.pt1 && sp'.layout == sp.layout
  {
  }

  /** actor_spawn_program succeeds exactly with room for an actor and a program table for its slot. */
  lemma SpawnProgramIff(k: Kernel, phys: nat, size: nat, entryOffset: nat)
    requires WF(k) && MemInv(k.mem) && 0 < size <= Paging.PROGRAM_WINDOW_MAX
    ensures SpawnProgram(k, phys, size, entryOffset).1 >= 0 <==>
            Spawning.Room(k) && exists s: nat :: LowestDead(k, s) && PoolHas(k.spaces, s)
    ensures SpawnProgram(k, phys, size, entryOffset).1 >= 0 ==> LowestDead(k, SpawnProgram(k, phys, size, entryOffset).1)
  {
    var entry := Paging.PROGRAM_VBASE + entryOffset;
    Spawning.SpawnFailsIff(k, entry);
    SpawnKeepsPool(k, entry);
    var (k1, slot) := Spawn(k, entry);
    if slot >= 0 {
      MapSucceedsIff(k1.spaces, slot, phys, size);
      assert LowestDead(k, slot);
      assert forall s: nat :: LowestDead(k, s) ==> s == slot;
      SamePool(k.spaces, k1.spaces, slot);
    }
  }

  lemma ProgramChildIff(k: Kernel, phys: nat, size: nat, entryOffset: nat)
    requires Started(k) && MemInv(k.mem) && 0 < size <= Paging.PROGRAM_WINDOW_MAX
    ensures SpawnProgramChild(k, phys, size, entryOffset).1 >= 0 <==>
            && HasCap(Me(k), CAP_SPAWN, 0) && Me(k).spawnCount < Me(k).spawnQuota
            && Spawning.Room(k) && exists s: nat :: LowestDead(k, s) && PoolHas(k.spaces, s)
  {
    SpawnProgramIff(k, phys, size, entryOffset);
  }

  /** What loading comes to, once the object has been read and its pages claimed. */
  lemma LoadIs(k: Kernel, id: int, entryOffset: nat, code: seq<byte>, rest: seq<byte>, n: nat)
    requires Started(k) && IsProgram(k, id, entryOffset, code, rest) && PagesNeeded(|code|, n)
    ensures var (mem, phys) := DmaPages(k.mem, n);
            && n <= 512 && 0 < 4096 * n <= Paging.PROGRAM_WINDOW_MAX
            && WF(k.(mem := mem))
            && LoadProgram(k, id) == if phys.None? then (k, -1) else SpawnProgramChild(k.(mem := mem), phys.value, 4096 * n, entryOffset)
  {
    ProgramRoundTrip(entryOffset, code, rest);
    PagesForIs(|code|, n);
    LoadUnfolds(k, id, ProgramHeader(entryOffset, |code|) + code + rest, Image(entryOffset, |code|), n);
    assert n * PAGE_SIZE == 4096 * n;
  }

  lemma LoadUnfolds(k: Kernel, id: int, bytes: seq<byte>, image: Image, n: nat)
    requires Started(k) && StoreSpec.Read(k.store, id, Directory.OBJECT_MAX_BYTES) == Some(bytes) && ParseProgram(bytes) == Some(image)
    requires PagesFor(image.codeSize) == n
    ensures var (mem, phys) := DmaPages(k.mem, n);
            && WF(k.(mem := mem))
            && LoadProgram(k, id) == if phys.None? then (k, -1) else SpawnProgramChild(k.(mem := mem), phys.value, n * PAGE_SIZE, image.entryOffset)
  {
  }

  /** There are n consecutive pages at or above 2MB that nobody has touched yet. */
  ghost predicate RunThere(m: Mem, n: nat)
    requires WellFormed(m)
  {
    exists t: nat :: Index(DMA_BASE) <= t && RunFree(m, t, n)
  }

  lemma ClaimIff(m: Mem, n: nat)
    requires MemInv(m) && n > 0
    ensures var (m', r) := DmaPages(m, n);
            && MemInv(m') && (r.Some? <==> RunThere(m, n))
            && (r.Some? ==> r.value % 4096 == 0 && r.value >= DMA_BASE && FreeSet(m') == FreeSet(m) - RunPages(r.value, n)
                            && RunPages(r.value, n) <= FreeSet(m))
  {
    ClaimContigRefines(m, DMA_BASE, n);
  }

  /**
    A program object starts exactly when the caller may read it and may spawn,
    has quota left, and the machine has a run of pages for the code, then a page
    in the window for the stack, a DEAD slot and a program table for it.
   */
  lemma ProgramStartsIff(k: Kernel, id: int, entryOffset: nat, code: seq<byte>, rest: seq<byte>, n: nat)
    requires Enabled(k, SysSpawnProgram(id)) && 0 <= k.current && MemInv(k.mem)
    requires IsProgram(k, id, entryOffset, code, rest) && PagesNeeded(|code|, n)
    ensures WF(k.(mem := DmaPages(k.mem, n).0))
    ensures var out := Step(k, SysSpawnProgram(id)).1; var me := k.actors[k.current];
            && out.Code?
            && (out.code >= 0 <==>
                  && Capability(CAP_READ_OBJECT, id) in me.caps && Capability(CAP_SPAWN, 0) in me.caps
                  && me.spawnCount < me.spawnQuota
                  && RunThere(k.mem, n) && Spawning.Room(k.(mem := DmaPages(k.mem, n).0))
                  && exists s: nat :: LowestDead(k, s) && PoolHas(k.spaces, s))
  {
    LoadIs(k, id, entryOffset, code, rest, n);
    ClaimIff(k.mem, n);
    LoadCallIs(k, SysSpawnProgram(id));
    var (mem, phys) := DmaPages(k.mem, n);
    if phys.Some? {
      var k1 := k.(mem := mem);
      ProgramChildIff(k1, phys.value, 4096 * n, entryOffset);
      assert forall s: nat :: LowestDead(k1, s) <==> LowestDead(k, s);
    }
  }

  // ---- where it starts, and on which frames -----------------------------------------------------------

  /** What ring 3 finds at page p of slot c's program window. */
  ghost function WindowPage(k: Kernel, c: nat, p: nat): Paging.Translation
    requires SlotOk(k, c)
  {
    Paging.Walk(k.spaces, k.actors[c].cr3, Paging.PROGRAM_VBASE / 4096 + p)
  }

  /** Slot c's program window shows n frames from f on, user and writable, and nothing above them. */
  ghost predicate Shows(k: Kernel, c: nat, f: nat, n: nat) {
    SlotOk(k, c) && forall p: nat :: p < 512 ==> WindowPage(k, c, p) == if p < n then Paging.Mapped(f + p, true, true) else Paging.Fault
  }

  /** The tables and the row after a successful actor_spawn_program. */
  lemma ProgramMade(k: Kernel, phys: nat, size: nat, entryOffset: nat)
    requires WF(k) && SpawnProgram(k, phys, size, entryOffset).1 >= 0
    ensures var (k', c) := SpawnProgram(k, phys, size, entryOffset);
            && SlotOk(k', c) && k'.actors[c].entry == Paging.PROGRAM_VBASE + entryOffset && k'.actors[c].cr3 == k'.spaces.Pml4(c)
            && k'.spaces.Sized() && c < |k'.spaces.pml4|
            && exists q: nat :: Paging.UsesPool(k'.spaces, c, q) && k'.spaces.pt1[q] == Paging.ProgramRow(phys, size)
  {
    var (k', c) := SpawnProgram(k, phys, size, entryOffset);
    var k1 := Spawn(k, Paging.PROGRAM_VBASE + entryOffset).0;
    var q := Paging.PoolIndex(Paging.Owners(k1.spaces), c);
    assert Paging.UsesPool(k'.spaces, c, q) && k'.spaces.pt1[q] == Paging.ProgramRow(phys, size);
  }

  lemma ProgramChildMade(k: Kernel, phys: nat, size: nat, entryOffset: nat)
    requires Started(k) && SpawnProgramChild(k, phys, size, entryOffset).1 >= 0
    ensures var (k', c) := SpawnProgramChild(k, phys, size, entryOffset);
            && SlotOk(k', c) && k'.actors[c].entry == Paging.PROGRAM_VBASE + entryOffset && k'.actors[c].cr3 == k'.spaces.Pml4(c)
            && k'.spaces.Sized() && c < |k'.spaces.pml4| && !k'.actors[c].state.Dead?
            && exists q: nat :: Paging.UsesPool(k'.spaces, c, q) && k'.spaces.pt1[q] == Paging.ProgramRow(phys, size)
  {
    ProgramMade(k, phys, size, entryOffset);
  }

  lemma WindowShows(k: Kernel, c: nat, phys: nat, n: nat)
    requires Isolation.IsoInv(k, {}) && SlotOk(k, c) && !k.actors[c].state.Dead? && n <= 512 && k.actors[c].cr3 == k.spaces.Pml4(c)
    requires k.spaces.Sized() && c < |k.spaces.pml4|
    requires exists q: nat :: Paging.UsesPool(k.spaces, c, q) && k.spaces.pt1[q] == Paging.ProgramRow(phys, 4096 * n)
    ensures Shows(k, c, phys / 4096, n)
  {
    var q: nat :| Paging.UsesPool(k.spaces, c, q) && k.spaces.pt1[q] == Paging.ProgramRow(phys, 4096 * n);
    forall p: nat | p < 512
      ensures WindowPage(k, c, p) == if p < n then Paging.Mapped(phys / 4096 + p, true, true) else Paging.Fault
    {
      Paging.ProgramVisible(k.spaces, c, k.actors[c].stackPage, q, phys, 4096 * n, p);
    }
  }

  /** Slot c was started at this entry, on n frames that were free before. */
  ghost predicate StartedOn(k: Kernel, k': Kernel, c: nat, entryOffset: nat, f: nat, n: nat) {
    && SlotOk(k', c) && k'.actors[c].entry == Paging.PROGRAM_VBASE + entryOffset
    && Shows(k', c, f, n) && RunPages(4096 * f, n) <= FreeSet(k.mem)
  }

  lemma ChildStartedOn(k: Kernel, k1: Kernel, phys: nat, n: nat, entryOffset: nat, k': Kernel, c: nat)
    requires Started(k1) && (k', c) == SpawnProgramChild(k1, phys, 4096 * n, entryOffset) && Isolation.IsoInv(k', {}) && n <= 512
    requires phys % 4096 == 0 && RunPages(phys, n) <= FreeSet(k.mem)
    ensures StartedOn(k, k', c, entryOffset, phys / 4096, n)
  {
    ProgramChildMade(k1, phys, 4096 * n, entryOffset);
    WindowShows(k', c, phys, n);
    assert 4096 * (phys / 4096) == phys;
  }

  /**
    A program that starts does so at its own entry, and its window shows exactly
    as many consecutive frames as its code needs, all of them free before.
   */
  lemma ProgramStarts(k: Kernel, id: int, entryOffset: nat, code: seq<byte>, rest: seq<byte>, n: nat) returns (f: nat)
    requires Enabled(k, SysSpawnProgram(id)) && 0 <= k.current && Isolation.IsoInv(k, {})
    requires IsProgram(k, id, entryOffset, code, rest) && PagesNeeded(|code|, n)
    requires Child(SysSpawnProgram(id), Step(k, SysSpawnProgram(id)).1) >= 0
    ensures var (k', out) := Step(k, SysSpawnProgram(id)); StartedOn(k, k', out.code, entryOffset, f, n)
  {
    LoadIs(k, id, entryOffset, code, rest, n);
    LoadCallIs(k, SysSpawnProgram(id));
    ClaimIff(k.mem, n);
    var (mem, phys) := DmaPages(k.mem, n);
    Isolation.LoadCallKeeps(k, SysSpawnProgram(id));
    var (k', out) := Step(k, SysSpawnProgram(id));
    ChildStartedOn(k, k.(mem := mem), phys.value, n, entryOffset, k', out.code);
    f := phys.value / 4096;
  }

  // ---- when it does not start ----------------------------------------------------------------------------

  /** Nobody alive has changed, nobody has come alive, and the store is as it was. */
  ghost predicate NobodyAffected(k: Kernel, k': Kernel) {
    && |k'.actors| == |k.actors| && k'.store == k.store && k'.current == k.current && k'.halted == k.halted
    && forall s :: 0 <= s < |k.actors| ==> if k.actors[s].state.Dead? then k'.actors[s].state.Dead? else k'.actors[s] == k.actors[s]
  }

  lemma RefusedChild(k: Kernel, phys: nat, size: nat, entryOffset: nat)
    requires Started(k) && SpawnProgramChild(k, phys, size, entryOffset).1 < 0
    ensures NobodyAffected(k, SpawnProgramChild(k, phys, size, entryOffset).0)
  {
    Spawning.ProgramBooks(k, phys, size, entryOffset);
  }

  lemma RefusedLoad(k: Kernel, id: int)
    requires Started(k) && LoadProgram(k, id).1 < 0
    ensures NobodyAffected(k, LoadProgram(k, id).0)
  {
    var bytes := StoreSpec.Read(k.store, id, Directory.OBJECT_MAX_BYTES);
    if bytes.Some? && ParseProgram(bytes.value).Some? {
      var image := ParseProgram(bytes.value).value;
      var n := PagesFor(image.codeSize);
      LoadUnfolds(k, id, bytes.value, image, n);
      var (mem, phys) := DmaPages(k.mem, n);
      if phys.Some? {
        RefusedChild(k.(mem := mem), phys.value, n * PAGE_SIZE, image.entryOffset);
      }
    }
  }

  /** A SYS_SPAWN_PROGRAM that fails, for whatever reason, touches no living actor and no object. */
  lemma RefusedLoadLeaves(k: Kernel, id: int)
    requires Enabled(k, SysSpawnProgram(id)) && 0 <= k.current && Child(SysSpawnProgram(id), Step(k, SysSpawnProgram(id)).1) < 0
    ensures Step(k, SysSpawnProgram(id)).1 == Code(-1) && NobodyAffected(k, Step(k, SysSpawnProgram(id)).0)
  {
    LoadCallIs(k, SysSpawnProgram(id));
    if HasCap(Me(k), CAP_READ_OBJECT, id) {
      RefusedLoad(k, id);
    }
  }
}
