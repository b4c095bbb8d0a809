/**
  actor_spawn_child, exactly: when it refuses, what a new actor is and what its
  parent gets; and over every run, that spawn counts count.
 */
module Spawning {
  import opened ActorTable
  import opened Kernel
  import opened Lifecycle
  import opened PageFrames
  import Directory
  import Mailboxes
  import Paging
  import Runs
  import Scheduling
  import StoreSpec

  // ---- when a spawn is refused ---------------------------------------------------------------

  /** One stack page starting here fits the private window, 1MB to 2MB. */
  predicate InPrivateWindow(page: nat) {
    0x100000 <= page && page + 4096 <= 0x200000
  }

  /** Everything a spawn needs from the machine. */
  ghost predicate Room(k: Kernel)
    requires WF(k)
  {
    && (exists s :: 0 <= s < |k.actors| && k.actors[s].state.Dead?)
    && FreeSet(k.mem) != {}
    && (AllocPage(k.mem).1.Some? ==> InPrivateWindow(AllocPage(k.mem).1.value))
  }

  /** actor_spawn by itself. */
  lemma SpawnFailsIff(k: Kernel, entry: nat)
    requires WF(k) && MemInv(k.mem)
    ensures var (k', slot) := Spawn(k, entry);
            && (slot == -1 <==> !Room(k))
            && (slot != -1 ==> SlotOk(k, slot) && k.actors[slot].state.Dead? && forall s :: 0 <= s < slot ==> !k.actors[s].state.Dead?)
  {
    AllocPageRefines(k.mem);
    var slot := FirstDead(k.actors, 0);
    if slot < |k.actors| {
      assert k.actors[slot].state.Dead?;
    }
  }

  /** SYS_SPAWN is refused exactly without the right, without quota, without a slot, without a page or with a page outside the window. */
  lemma SpawnRefusedIff(k: Kernel, entry: nat)
    requires Enabled(k, SysSpawn(entry)) && 0 <= k.current && MemInv(k.mem)
    ensures var out := Step(k, SysSpawn(entry)).1; var me := k.actors[k.current];
            && out.Code?
            && (out.code == -1 <==> || Capability(CAP_SPAWN, 0) !in me.caps
                                    || me.spawnCount >= me.spawnQuota
                                    || (forall s :: 0 <= s < |k.actors| ==> !k.actors[s].state.Dead?)
                                    || FreeSet(k.mem) == {}
                                    || (AllocPage(k.mem).1.Some? && !InPrivateWindow(AllocPage(k.mem).1.value)))
            && (out.code != -1 ==> SlotOk(k, out.code) && k.actors[out.code].state.Dead?
                                   && forall s :: 0 <= s < out.code ==> !k.actors[s].state.Dead?)
  {
    SpawnFailsIff(k, entry);
    assert Step(k, SysSpawn(entry)) == Coded(SpawnChild(k, entry));
  }

  // ---- what a successful spawn leaves --------------------------------------------------------

  /** A new actor as actor_spawn makes it, before anybody has granted it anything. */
  predicate Newborn(a: Actor, entry: nat, page: nat, cr3: nat) {
    && a.state.Ready? && a.entry == entry && a.stackPage == page && a.cr3 == cr3
    && a.count == 0 && a.head == 0 && !a.inReceive && a.spawnCount == 0 && a.spawnQuota == 2 && a.window == 0
  }

  /** actor_spawn changes one row, one page and that slot's tables. */
  ghost predicate Made(k: Kernel, entry: nat, c: int, k': Kernel) {
    && SlotOk(k, c) && |k'.actors| == |k.actors| && k'.actors == k.actors[c := k'.actors[c]]
    && k'.current == k.current && k'.halted == k.halted && k'.store == k.store
    && Newborn(k'.actors[c], entry, k'.actors[c].stackPage, k.spaces.Pml4(c)) && Rights(k'.actors[c]) == {}
    && Empties(k'.actors[c].caps) == |k.actors[c].caps|
    && k'.actors[c].stackPage in FreeSet(k.mem) && InPrivateWindow(k'.actors[c].stackPage)
    && MemInv(k'.mem) && FreeSet(k'.mem) == FreeSet(k.mem) - {k'.actors[c].stackPage}
  }

  lemma SpawnMakes(k: Kernel, entry: nat)
    requires WF(k) && MemInv(k.mem) && Spawn(k, entry).1 >= 0
    ensures var (k', c) := Spawn(k, entry); Made(k, entry, c, k')
  {
    AllocPageRefines(k.mem);
    var c := FirstDead(k.actors, 0);
    NothingIsEmpty(|k.actors[c].caps|);
  }

  /** kernel_main's own spawns make the same. */
  lemma BootSpawnExact(k: Kernel, entry: nat)
    requires Enabled(k, BootSpawn(entry)) && MemInv(k.mem)
    ensures var (k', out) := Step(k, BootSpawn(entry));
            && out.Code? && (out.code == -1 <==> !Room(k)) && (out.code != -1 ==> Made(k, entry, out.code, k'))
  {
    SpawnFailsIff(k, entry);
    assert Step(k, BootSpawn(entry)) == Coded(Spawn(k, entry));
    if Spawn(k, entry).1 >= 0 {
      SpawnMakes(k, entry);
    }
  }

  lemma {:induction false} NothingIsEmpty(n: nat)
    ensures Empties(seq(n, i => NO_CAP)) == n
  {
    if n > 0 {
      var s := seq(n, i => NO_CAP);
      assert s[1..] == seq(n - 1, i => NO_CAP);
      NothingIsEmpty(n - 1);
    }
  }

  /** What parent and child get, as far as their tables have room. */
  lemma AdoptGives(k: Kernel, p: nat, c: nat)
    requires WF(k) && SlotOk(k, p) && SlotOk(k, c) && p != c
    ensures var k' := Adopt(k, p, c); var (a, b) := (k.actors[p], k.actors[c]);
            && k' == k.(actors := k'.actors) && k'.actors == k.actors[p := k'.actors[p]][c := k'.actors[c]]
            && k'.actors[p] == a.(spawnCount := a.spawnCount + 1, caps := k'.actors[p].caps)
            && k'.actors[c] == b.(caps := k'.actors[c].caps)
            && Rights(k'.actors[p]) == Rights(a) + FirstOf([Capability(CAP_SEND, c), Capability(CAP_TERMINATE, c)], Empties(a.caps))
            && Rights(k'.actors[c]) == Rights(b) + (if Empties(b.caps) > 0 then {Capability(CAP_SEND, p)} else {})
  {
    var a := k.actors[p].(spawnCount := k.actors[p].spawnCount + 1);
    var cs := [Capability(CAP_SEND, c), Capability(CAP_TERMINATE, c)];
    AddCapsRights(a, cs);
    AddCapRights(k.actors[c], Capability(CAP_SEND, p));
    assert Rights(a) == Rights(k.actors[p]);
  }

  /**
    Slot c holds a new actor at this entry, on one page taken from the free
    pages, which may send to its parent and do nothing else; the parent is one
    spawn nearer its quota and may send to the child and terminate it, as far as
    its table has room; nothing else has changed.
   */
  ghost predicate ChildBorn(k: Kernel, entry: nat, c: int, k': Kernel)
    requires Started(k)
  {
    var p := k.current;
    && SlotOk(k, c) && c != p && |k'.actors| == |k.actors|
    && k'.current == p && k'.halted == k.halted && k'.store == k.store && k'.actors == k.actors[p := k'.actors[p]][c := k'.actors[c]]
    && Newborn(k'.actors[c], entry, k'.actors[c].stackPage, k.spaces.Pml4(c))
    && Rights(k'.actors[c]) == (if |k.actors[c].caps| > 0 then {Capability(CAP_SEND, p)} else {})
    && k'.actors[p] == Me(k).(spawnCount := Me(k).spawnCount + 1, caps := k'.actors[p].caps)
    && Rights(k'.actors[p]) == Rights(Me(k)) + FirstOf([Capability(CAP_SEND, c), Capability(CAP_TERMINATE, c)], Empties(Me(k).caps))
    && k'.actors[c].stackPage in FreeSet(k.mem) && FreeSet(k'.mem) == FreeSet(k.mem) - {k'.actors[c].stackPage}
  }

  lemma SpawnStepIs(k: Kernel, entry: nat)
    requires Enabled(k, SysSpawn(entry)) && 0 <= k.current && Child(SysSpawn(entry), Step(k, SysSpawn(entry)).1) >= 0
    ensures var (k1, c) := Spawn(k, entry); c >= 0 && Step(k, SysSpawn(entry)) == (Adopt(k1, k.current, c), Code(c))
  {
    assert Step(k, SysSpawn(entry)) == Coded(SpawnChild(k, entry));
  }

  lemma BornAs(k: Kernel, entry: nat, k1: Kernel, c: nat, k': Kernel)
    requires Started(k) && c != k.current && WF(k1) && Made(k, entry, c, k1) && k' == Adopt(k1, k.current, c)
    ensures ChildBorn(k, entry, c, k')
  {
    AdoptGives(k1, k.current, c);
  }

  /** SYS_SPAWN, when it succeeds. */
  lemma SpawnExact(k: Kernel, entry: nat)
    requires Enabled(k, SysSpawn(entry)) && 0 <= k.current && Runnable(Me(k)) && MemInv(k.mem)
    requires Child(SysSpawn(entry), Step(k, SysSpawn(entry)).1) >= 0
    ensures var (k', out) := Step(k, SysSpawn(entry)); ChildBorn(k, entry, out.code, k')
  {
    SpawnStepIs(k, entry);
    SpawnFailsIff(k, entry);
    SpawnMakes(k, entry);
    var (k1, c) := Spawn(k, entry);
    BornAs(k, entry, k1, c, Step(k, SysSpawn(entry)).0);
  }

  lemma RefusedStepIs(k: Kernel, entry: nat)
    requires Enabled(k, SysSpawn(entry)) && 0 <= k.current && Step(k, SysSpawn(entry)).1 == Code(-1)
    ensures var k' := Step(k, SysSpawn(entry)).0; var (m, page) := AllocPage(k.mem);
            && k' == k.(mem := k'.mem)
            && (k'.mem == k.mem || (page.None? && k'.mem == m) || (page.Some? && k'.mem == FreePage(m, page.value)))
  {
    assert Step(k, SysSpawn(entry)) == Coded(SpawnChild(k, entry));
  }

  /** A refused SYS_SPAWN leaves everything as it was, but for a page that could be neither used nor listed again. */
  lemma RefusedSpawnLeaves(k: Kernel, entry: nat)
    requires Enabled(k, SysSpawn(entry)) && 0 <= k.current && MemInv(k.mem) && Step(k, SysSpawn(entry)).1 == Code(-1)
    ensures var k' := Step(k, SysSpawn(entry)).0;
            && k' == k.(mem := k'.mem)
            && (FreeSet(k'.mem) == FreeSet(k.mem)
                || (k.mem.freeCap == 0 && AllocPage(k.mem).1.Some? && FreeSet(k'.mem) == FreeSet(k.mem) - {AllocPage(k.mem).1.value}))
  {
    RefusedStepIs(k, entry);
    GivenBack(k.mem);
  }

  /** Giving a page back at once restores the set of free pages, if there is a list at all. */
  lemma GivenBack(m: Mem)
    requires MemInv(m)
    ensures var (m', page) := AllocPage(m);
            if page.None? then FreeSet(m') == FreeSet(m)
            else FreeSet(FreePage(m', page.value)) == if m.freeCap == 0 then FreeSet(m) - {page.value} else FreeSet(m)
  {
    AllocPageRefines(m);
    var (m', page) := AllocPage(m);
    if page.Some? {
      FreePageRefines(m', page.value);
    }
  }

  // ---- spawn counts over every run -------------------------------------------------------------

  /** What one step does to the books of slot s. */
  ghost predicate BookStep(k: Kernel, e: Event, out: Outcome, k': Kernel, s: nat) {
    && SlotOk(k, s) && SlotOk(k', s)
    && var (a, b) := (k.actors[s], k'.actors[s]);
    && (!a.state.Dead? ==>
          && b.spawnCount == a.spawnCount + (if k.current == s && Child(e, out) >= 0 then 1 else 0)
          && (b.spawnQuota == a.spawnQuota || (e.BootQuota? && e.slot == s)))
    && (a.state.Dead? && !b.state.Dead? ==> b.spawnCount == 0)
  }

  /** Nothing happens to the books of the living, and nobody comes alive. */
  ghost predicate BooksKept(k: Kernel, k': Kernel) {
    && |k'.actors| == |k.actors|
    && forall s :: 0 <= s < |k.actors| ==>
         var (a, b) := (k.actors[s], k'.actors[s]);
         if a.state.Dead? then b.state.Dead? else b.spawnCount == a.spawnCount && b.spawnQuota == a.spawnQuota
  }

  lemma KeptBooks(k: Kernel, e: Event, out: Outcome, k': Kernel, s: nat)
    requires BooksKept(k, k') && SlotOk(k, s) && Child(e, out) < 0
    ensures BookStep(k, e, out, k', s)
  {
  }

  lemma ScheduleBooks(k: Kernel)
    requires Scheduling.Between(k)
    ensures BooksKept(k, ScheduleNext(k))
  {
    ReapRows(k, 0);
    Scheduling.ScheduleNextEffect(k);
  }

  lemma DecisionBooks(k: Kernel, e: Event)
    requires Scheduling.SchedInv(k) && Enabled(k, e) && Scheduling.Decides(k, e)
    ensures BooksKept(k, Step(k, e).0)
  {
    Scheduling.DecisionEffect(k, e);
    var k0, k' := Scheduling.AtDecision(k, e), Step(k, e).0;
    ScheduleBooks(k0);
    forall s | 0 <= s < |k.actors|
      ensures var (a, b) := (k.actors[s], k'.actors[s]);
              if a.state.Dead? then b.state.Dead? else b.spawnCount == a.spawnCount && b.spawnQuota == a.spawnQuota
    {
      DecisionRow(k, e, s);
      if !k.actors[s].state.Dead? && k0.actors[s].state.Dead? {
        ExitExact(k);
      }
    }
  }

  lemma DecisionRow(k: Kernel, e: Event, s: nat)
    requires Scheduling.SchedInv(k) && Enabled(k, e) && Scheduling.Decides(k, e) && SlotOk(k, s)
    ensures var (a, b) := (k.actors[s], Scheduling.AtDecision(k, e).actors[s]);
            && b == a.(state := b.state, inReceive := b.inReceive)
            && (a.state.Dead? ==> b.state.Dead?)
            && (!a.state.Dead? && b.state.Dead? ==> e.SysExit? && s == k.current)
  {
  }

  lemma MessageBooks(k: Kernel, e: Event)
    requires Enabled(k, e) && !Scheduling.Decides(k, e) && (e.SysSend? || e.SysReceive? || e.Resume?)
    requires 0 <= k.current ==> !Me(k).state.Dead?
    ensures BooksKept(k, Step(k, e).0)
  {
  }

  lemma TableBooks(k: Kernel, e: Event)
    requires Enabled(k, e) && (e.SysGrant? || e.SysTerminate? || e.BootGrant? || e.BootWindow?)
    ensures BooksKept(k, Step(k, e).0)
  {
  }

  lemma CreateBooks(k: Kernel, e: Event)
    requires Enabled(k, e) && e.SysCreate?
    ensures BooksKept(k, Step(k, e).0)
  {
    var k' := Step(k, e).0;
    if HasCap(Me(k), CAP_CREATE_OBJECT, 0) {
      assert k' == CreateByActor(k, e.name).0;
    } else {
      assert k' == k;
    }
  }

  /** actor_spawn and actor_spawn_program touch nobody alive, and start at zero. */
  ghost predicate FreshBooks(k: Kernel, k': Kernel, c: int) {
    && |k'.actors| == |k.actors|
    && (forall s :: 0 <= s < |k.actors| && !k.actors[s].state.Dead? ==> k'.actors[s] == k.actors[s])
    && (forall s :: 0 <= s < |k.actors| && k.actors[s].state.Dead? && !k'.actors[s].state.Dead? ==> s == c && k'.actors[s].spawnCount == 0)
    && (c >= 0 ==> SlotOk(k, c) && k.actors[c].state.Dead?)
  }

  lemma SpawnBooks(k: Kernel, entry: nat)
    requires WF(k)
    ensures var (k', c) := Spawn(k, entry); FreshBooks(k, k', c)
  {
  }

  lemma ProgramBooks(k: Kernel, phys: nat, size: nat, entryOffset: nat)
    requires WF(k)
    ensures var (k', c) := SpawnProgram(k, phys, size, entryOffset); FreshBooks(k, k', c)
  {
    SpawnBooks(k, Paging.PROGRAM_VBASE + entryOffset);
  }

  /** The spawner's count goes up by one, and nothing else in anybody's books changes. */
  ghost predicate ChildBooks(k: Kernel, k': Kernel, c: int)
    requires Started(k)
  {
    && |k'.actors| == |k.actors| && c < |k.actors|
    && forall s :: 0 <= s < |k.actors| ==>
         var (a, b) := (k.actors[s], k'.actors[s]);
         && (!a.state.Dead? ==> b.spawnQuota == a.spawnQuota && b.spawnCount == a.spawnCount + (if k.current == s && c >= 0 then 1 else 0))
         && (a.state.Dead? && !b.state.Dead? ==> b.spawnCount == 0)
  }

  lemma AdoptedBooks(k: Kernel, k1: Kernel, c: int, k': Kernel)
    requires Started(k) && !Me(k).state.Dead? && WF(k1) && FreshBooks(k, k1, c) && -1 <= c
    requires k' == if c < 0 then k1 else Adopt(k1, k.current, c)
    ensures ChildBooks(k, k', c)
  {
    if c >= 0 {
      AdoptGives(k1, k.current, c);
    }
  }

  lemma SpawnChildBooks(k: Kernel, entry: nat)
    requires Started(k) && !Me(k).state.Dead?
    ensures var (k', c) := SpawnChild(k, entry); ChildBooks(k, k', c)
  {
    SpawnBooks(k, entry);
    var (k1, c) := Spawn(k, entry);
    AdoptedBooks(k, k1, c, if c < 0 then k1 else Adopt(k1, k.current, c));
  }

  lemma ProgramChildBooks(k: Kernel, phys: nat, size: nat, entryOffset: nat)
    requires Started(k) && !Me(k).state.Dead?
    ensures var (k', c) := SpawnProgramChild(k, phys, size, entryOffset); ChildBooks(k, k', c)
  {
    ProgramBooks(k, phys, size, entryOffset);
    var (k1, c) := SpawnProgram(k, phys, size, entryOffset);
    AdoptedBooks(k, k1, c, if c < 0 then k1 else Adopt(k1, k.current, c));
  }

  lemma LoadBooks(k: Kernel, id: int)
    requires Started(k) && !Me(k).state.Dead?
    ensures var (k', c) := LoadProgram(k, id); ChildBooks(k, k', c)
  {
    var bytes := StoreSpec.Read(k.store, id, Directory.OBJECT_MAX_BYTES);
    if bytes.Some? && ParseProgram(bytes.value).Some? {
      var image := ParseProgram(bytes.value).value;
      var (mem, phys) := DmaPages(k.mem, PagesFor(image.codeSize));
      if phys.Some? {
        ProgramChildBooks(k.(mem := mem), phys.value, PagesFor(image.codeSize) * PAGE_SIZE, image.entryOffset);
      }
    }
  }

  lemma BooksOfChild(k: Kernel, e: Event, c: int, k': Kernel, s: nat)
    requires Started(k) && SlotOk(k, s) && (e.SysSpawn? || e.SysSpawnProgram?) && -1 <= c && ChildBooks(k, k', c)
    ensures BookStep(k, e, Code(c), k', s)
  {
  }

  lemma SpawnCallBooks(k: Kernel, e: Event, s: nat)
    requires Enabled(k, e) && 0 <= k.current && !Me(k).state.Dead? && SlotOk(k, s) && e.SysSpawn?
    ensures BookStep(k, e, Step(k, e).1, Step(k, e).0, s)
  {
    SpawnCallIs(k, e);
    SpawnChildBooks(k, e.entry);
    BooksOfChild(k, e, SpawnChild(k, e.entry).1, SpawnChild(k, e.entry).0, s);
  }

  lemma LoadCallBooks(k: Kernel, e: Event, s: nat)
    requires Enabled(k, e) && 0 <= k.current && !Me(k).state.Dead? && SlotOk(k, s) && e.SysSpawnProgram?
    ensures BookStep(k, e, Step(k, e).1, Step(k, e).0, s)
  {
    LoadCallIs(k, e);
    if HasCap(Me(k), CAP_READ_OBJECT, e.id) {
      LoadBooks(k, e.id);
      BooksOfChild(k, e, LoadProgram(k, e.id).1, LoadProgram(k, e.id).0, s);
    }
  }

  lemma BootBooks(k: Kernel, e: Event, s: nat)
    requires Enabled(k, e) && SlotOk(k, s) && (e.BootSpawn? || e.BootQuota?)
    ensures BookStep(k, e, Step(k, e).1, Step(k, e).0, s)
  {
    if e.BootSpawn? {
      SpawnBooks(k, e.entry);
      assert Step(k, e) == Coded(Spawn(k, e.entry));
    }
  }

  lemma StepBooks(k: Kernel, e: Event, s: nat)
    requires Scheduling.SchedInv(k) && Enabled(k, e) && SlotOk(k, s)
    ensures BookStep(k, e, Step(k, e).1, Step(k, e).0, s)
  {
    if e.SysSpawn? {
      SpawnCallBooks(k, e, s);
    } else if e.SysSpawnProgram? {
      LoadCallBooks(k, e, s);
    } else if e.BootSpawn? || e.BootQuota? {
      BootBooks(k, e, s);
    } else {
      OtherBooks(k, e);
      KeptBooks(k, e, Step(k, e).1, Step(k, e).0, s);
    }
  }

  lemma OtherBooks(k: Kernel, e: Event)
    requires Scheduling.SchedInv(k) && Enabled(k, e) && !e.SysSpawn? && !e.SysSpawnProgram? && !e.BootSpawn? && !e.BootQuota?
    ensures BooksKept(k, Step(k, e).0)
  {
    if Scheduling.Decides(k, e) {
      DecisionBooks(k, e);
    } else if e.SysSend? || e.SysReceive? || e.Resume? {
      MessageBooks(k, e);
    } else if e.SysCreate? {
      CreateBooks(k, e);
    } else if e.SysGrant? || e.SysTerminate? || e.BootGrant? || e.BootWindow? {
      TableBooks(k, e);
    } else {
      Mailboxes.TableKept(k, e);
    }
  }

  /** The running actor is s, and this step of its spawns somebody. */
  ghost predicate SpawnsNow(k: Kernel, e: Event, s: nat) {
    Enabled(k, e) && k.current == s && Child(e, Step(k, e).1) >= 0
  }

  /** Which steps of a run are spawns by slot s. */
  ghost function SpawnFlags(ks: seq<Kernel>, es: seq<Event>, s: nat): (r: seq<bool>)
    requires |ks| == |es| + 1
    ensures |r| == |es|
  {
    seq(|es|, i requires 0 <= i < |es| => SpawnsNow(ks[i], es[i], s))
  }

  function CountIn(k: Kernel, s: nat): int {
    if SlotOk(k, s) then k.actors[s].spawnCount else 0
  }

  function Counts(ks: seq<Kernel>, s: nat): (r: seq<int>)
    ensures |r| == |ks|
  {
    seq(|ks|, i requires 0 <= i < |ks| => CountIn(ks[i], s))
  }

  /** Within its quota; before the scheduler starts nobody has spawned. */
  predicate WithinQuota(k: Kernel, s: nat) {
    && SlotOk(k, s)
    && var a := k.actors[s];
    && 0 <= a.spawnCount && (a.spawnCount == 0 || a.spawnCount <= a.spawnQuota) && (k.current == -1 ==> a.spawnCount == 0)
  }

  lemma QuotaStep(k: Kernel, e: Event, s: nat)
    requires Scheduling.SchedInv(k) && Enabled(k, e) && WithinQuota(k, s) && !k.actors[s].state.Dead?
    ensures WithinQuota(Step(k, e).0, s)
  {
    StepBooks(k, e, s);
    if 0 <= k.current {
      Scheduling.StepStaysStarted(k, e);
      if SpawnsNow(k, e, s) {
        SpawnNeedsRight(k, e);
      }
    }
  }

  lemma QuotaRunStep(ks: seq<Kernel>, es: seq<Event>, i: nat, s: nat)
    requires IsRun(ks, es) && Initial(ks[0]) && i < |es| && WithinQuota(ks[i], s) && !ks[i].actors[s].state.Dead?
    ensures WithinQuota(ks[i + 1], s)
  {
    Scheduling.InitialSched(ks[0]);
    Scheduling.RunSched(ks, es, i);
    QuotaStep(ks[i], es[i], s);
  }

  lemma CountRunStep(ks: seq<Kernel>, es: seq<Event>, i: nat, s: nat)
    requires IsRun(ks, es) && Initial(ks[0]) && i < |es| && SlotOk(ks[i], s) && !ks[i].actors[s].state.Dead?
    ensures Counts(ks, s)[i + 1] == Counts(ks, s)[i] + if SpawnFlags(ks, es, s)[i] then 1 else 0
  {
    Scheduling.InitialSched(ks[0]);
    Scheduling.RunSched(ks, es, i);
    StepBooks(ks[i], es[i], s);
  }

  lemma BirthRunStep(ks: seq<Kernel>, es: seq<Event>, i: nat, s: nat)
    requires IsRun(ks, es) && Initial(ks[0]) && i < |es|
    requires SlotOk(ks[i], s) && ks[i].actors[s].state.Dead? && SlotOk(ks[i + 1], s) && !ks[i + 1].actors[s].state.Dead?
    ensures CountIn(ks[i + 1], s) == 0 && WithinQuota(ks[i + 1], s)
  {
    Scheduling.InitialSched(ks[0]);
    Scheduling.RunSched(ks, es, i);
    StepBooks(ks[i], es[i], s);
  }

  /** Slot s is alive in all these states. */
  ghost predicate AliveIn(ks: seq<Kernel>, s: nat) {
    forall j :: 0 <= j < |ks| ==> SlotOk(ks[j], s) && !ks[j].actors[s].state.Dead?
  }

  lemma LivesAt(ks: seq<Kernel>, s: nat, b: nat, n: nat, i: nat)
    requires b < i <= n < |ks| && AliveIn(ks[b + 1..n + 1], s)
    ensures SlotOk(ks[i], s) && !ks[i].actors[s].state.Dead?
  {
    assert ks[b + 1..n + 1][i - b - 1] == ks[i];
  }

  lemma StaysWithinQuota(ks: seq<Kernel>, es: seq<Event>, s: nat, b: nat, n: nat)
    requires IsRun(ks, es) && Initial(ks[0]) && b < n < |ks| && AliveIn(ks[b + 1..n + 1], s) && WithinQuota(ks[b + 1], s)
    ensures WithinQuota(ks[n], s)
  {
    var within := (k: Kernel) => WithinQuota(k, s);
    forall i | b + 1 <= i < n && within(ks[i])
      ensures within(ks[i + 1])
    {
      LivesAt(ks, s, b, n, i);
      QuotaRunStep(ks, es, i, s);
    }
    Runs.Throughout(within, ks[..n + 1], b + 1, n);
  }

  /**
    In every run: as long as a slot keeps its occupant, born in step b, the
    occupant's count is the number of its spawns so far, and never more than its
    quota.
   */
  lemma SpawnsAreCounted(ks: seq<Kernel>, es: seq<Event>, s: nat, b: nat, n: nat)
    requires IsRun(ks, es) && Initial(ks[0]) && b < n < |ks|
    requires SlotOk(ks[b], s) && ks[b].actors[s].state.Dead? && AliveIn(ks[b + 1..n + 1], s)
    ensures WithinQuota(ks[n], s)
    ensures ks[n].actors[s].spawnCount == Runs.Count(SpawnFlags(ks, es, s)[b + 1..n])
  {
    LivesAt(ks, s, b, n, b + 1);
    BirthRunStep(ks, es, b, s);
    StaysWithinQuota(ks, es, s, b, n);
    forall i | b + 1 <= i < n
      ensures Counts(ks, s)[i + 1] == Counts(ks, s)[i] + if SpawnFlags(ks, es, s)[i] then 1 else 0
    {
      LivesAt(ks, s, b, n, i);
      CountRunStep(ks, es, i, s);
    }
    Runs.Tally(Counts(ks, s), SpawnFlags(ks, es, s), b + 1, n);
  }
}
