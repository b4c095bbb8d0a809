/**
  core/actor.c, core/loader.c and the dispatch of hal/x86_64/syscall.c as they
  work: tables scanned by loops and updated in place. Every method is proved to
  take the step that Kernel describes.
 */
module ActorKernel {
  import opened Options
  import opened Words
  import opened ActorTable
  import opened Kernel
  import PageFrames
  import Paging
  import Directory
  import Memory
  import AddressSpaces
  import Storage

  class ActorKernel {
    var actors: seq<Actor>
    var current: int
    var halted: bool
    const mem: Memory.PageAllocator
    const paging: AddressSpaces.AddressSpaces
    const store: Storage.ObjectStore

    ghost predicate Parts()
      reads this, mem, paging, store
    {
      mem.Valid() && paging.Valid() && store.Valid()
    }

    ghost function State(): Kernel
      requires Parts()
      reads this, mem, mem.bitmap, mem.freeList, paging, store
    {
      Kernel(actors, current, halted, mem.State(), paging.State(), store.State())
    }

    ghost predicate Valid()
      reads this, mem, mem.bitmap, mem.freeList, paging, store
    {
      Parts() && WF(State())
    }

    /** scheduler_init, over a memory, page tables and a store that are already up. */
    constructor (slots: nat, mailboxCapacity: nat, maxCaps: nat,
                 mem: Memory.PageAllocator, paging: AddressSpaces.AddressSpaces, store: Storage.ObjectStore)
      requires slots > 0 && mailboxCapacity > 0
      requires mem.Valid() && paging.Valid() && store.Valid()
      requires |paging.pml4| == slots && 0 < paging.layout.pml4
      ensures Valid() && Initial(State()) && |actors| == slots
      ensures this.mem == mem && this.paging == paging && this.store == store
    {
      this.mem := mem;
      this.paging := paging;
      this.store := store;
      var box := seq(mailboxCapacity, i => Message(0, 0, 0));
      var caps := seq(maxCaps, i => NO_CAP);
      var row := Actor(Dead, 0, 0, 0, box, 0, 0, caps, 0, MAX_SPAWNS_PER_ACTOR, CONSOLE_WIN_LOG, false);
      actors := seq(slots, i => row);
      current := -1;
      halted := false;
    }

    // ---- capabilities ---------------------------------------------------------------

    method HasCapability(slot: int, op: int, target: int) returns (b: bool)
      requires 0 <= slot < |actors|
      ensures b == HasCap(actors[slot], op, target)
    {
      var i := 0;
      while i < |actors[slot].caps|
        invariant 0 <= i <= |actors[slot].caps|
        invariant forall j :: 0 <= j < i ==> actors[slot].caps[j] != Capability(op, target)
      {
        if actors[slot].caps[i].op == op && actors[slot].caps[i].target == target {
          return true;
        }
        i := i + 1;
      }
      return false;
    }

    method AddCapability(slot: int, op: int, target: int) returns (rc: int)
      requires Valid() && 0 <= slot < |actors|
      modifies this`actors
      ensures Valid()
      ensures State() == SetActor(old(State()), slot, AddCap(old(actors[slot]), op, target).0)
      ensures rc == AddCap(old(actors[slot]), op, target).1
    {
      var caps := actors[slot].caps;
      var i := 0;
      while i < |caps|
        invariant 0 <= i <= |caps|
        invariant FreeCap(caps) == i + FreeCap(caps[i..])
        invariant actors == old(actors)
      {
        if caps[i].op == 0 {
          actors := actors[slot := actors[slot].(caps := caps[i := Capability(op, target)])];
          return 0;
        }
        assert caps[i..][1..] == caps[i + 1..];
        i := i + 1;
      }
      assert actors[slot := actors[slot]] == actors;
      return -1;
    }

    method Grant(dest: int, op: int, target: int) returns (rc: int)
      requires Valid()
      modifies this`actors
      ensures Valid() && (State(), rc) == GrantTo(old(State()), dest, op, target)
    {
      if dest < 0 || dest >= |actors| {
        return -1;
      }
      rc := AddCapability(dest, op, target);
    }

    method DelegateCap(dest: int, op: int, target: int) returns (rc: int)
      requires Valid() && Started(State())
      modifies this`actors
      ensures Valid() && (State(), rc) == Delegate(old(State()), dest, op, target)
    {
      if dest < 0 || dest >= |actors| {
        return -1;
      }
      var held := HasCapability(current, op, target);
      if !held {
        return -1;
      }
      rc := AddCapability(dest, op, target);
    }

    // ---- scheduling --------------------------------------------------------------------

    method ReapOne(i: nat)
      requires Valid() && i < |actors|
      modifies this`actors, mem, mem.freeList
      ensures Valid() && State() == ReapSlot(old(State()), i)
      ensures mem.bitmap == old(mem.bitmap) && mem.freeList == old(mem.freeList)
    {
      if i == current {
        return;
      }
      if actors[i].state.Dead? && actors[i].stackPage != 0 {
        mem.Release(actors[i].stackPage);
        actors := actors[i := actors[i].(stackPage := 0)];
      }
    }

    method ReapDeadActors()
      requires Valid()
      modifies this`actors, mem, mem.freeList
      ensures Valid() && State() == ReapFrom(old(State()), 0)
    {
      ghost var k := State();
      var n := |actors|;
      var i := 0;
      while i < n
        invariant 0 <= i <= n && Valid() && State() == Reaped(k, i)
        invariant mem.bitmap == old(mem.bitmap) && mem.freeList == old(mem.freeList)
      {
        ReapOne(i);
        i := i + 1;
      }
      ReapedAll(k, n);
    }

    /** The round-robin scan. */
    method PickNext(start: nat) returns (next: int)
      requires start < |actors|
      ensures next == PickFrom(actors, start, 1)
    {
      var i := 1;
      while i <= |actors|
        invariant 1 <= i <= |actors| + 1
        invariant PickFrom(actors, start, 1) == PickFrom(actors, start, i)
      {
        var idx := (start + i) % |actors|;
        WrapIsMod(start + i, |actors|);
        if actors[idx].state.Ready? || actors[idx].state.Running? {
          return idx;
        }
        i := i + 1;
      }
      return -1;
    }

    method SwitchToNext()
      requires Valid() && !halted
      modifies this, mem, mem.freeList
      ensures Valid() && State() == ScheduleNext(old(State()))
    {
      ReapDeadActors();
      var start := if current < 0 then 0 else current;
      var next := PickNext(start);
      Dispatch(next);
    }

    method Dispatch(next: int)
      requires Valid() && (next == -1 || SlotOk(State(), next))
      modifies this
      ensures Valid() && State() == SwitchTo(old(State()), next)
    {
      if next == -1 {
        halted := true;
        return;
      }
      current := next;
      actors := actors[next := actors[next].(state := Running)];
    }

    method YieldNow()
      requires Valid() && Started(State())
      modifies this, mem, mem.freeList
      ensures Valid() && State() == Yield(old(State()))
    {
      actors := actors[current := actors[current].(state := Ready)];
      SwitchToNext();
    }

    method ExitNow()
      requires Valid() && Started(State())
      modifies this, mem, mem.freeList
      ensures Valid() && State() == Exit(old(State()))
    {
      actors := actors[current := actors[current].(state := Dead)];
      SwitchToNext();
    }

    // ---- messages ------------------------------------------------------------------------

    method SendMessage(dest: int, mtype: u64, data: u64) returns (rc: int)
      requires Valid() && Started(State())
      modifies this`actors
      ensures Valid() && (State(), rc) == Send(old(State()), dest, mtype, data)
    {
      if dest < 0 || dest >= |actors| {
        return -1;
      }
      var allowed := HasCapability(current, CAP_SEND, dest);
      if !allowed {
        return -1;
      }
      var d := actors[dest];
      if d.state.Dead? {
        return -1;
      }
      if d.count >= |d.mailbox| {
        return -1;
      }
      WrapIsMod(d.head + d.count, |d.mailbox|);
      var tail := (d.head + d.count) % |d.mailbox|;
      d := d.(mailbox := d.mailbox[tail := Message(mtype, current, data)], count := d.count + 1);
      if d.state.Blocked? {
        d := d.(state := Ready);
      }
      actors := actors[dest := d];
      return 0;
    }

    /** One pass of actor_receive's loop; None means the caller is suspended inside it. */
    method ReceiveMessage() returns (m: Option<Message>)
      requires Valid() && Started(State())
      modifies this, mem, mem.freeList
      ensures Valid() && (State(), m) == Receive(old(State()))
    {
      var me := actors[current];
      if me.count == 0 {
        actors := actors[current := me.(state := Blocked, inReceive := true)];
        SwitchToNext();
        return None;
      }
      WrapIsMod(me.head + 1, |me.mailbox|);
      m := Some(me.mailbox[me.head]);
      actors := actors[current := me.(head := (me.head + 1) % |me.mailbox|, count := me.count - 1, inReceive := false)];
    }

    // ---- lifecycle -------------------------------------------------------------------------

    method FindDead() returns (slot: nat)
      ensures slot == FirstDead(actors, 0)
    {
      slot := 0;
      while slot < |actors| && !actors[slot].state.Dead?
        invariant 0 <= slot <= |actors|
        invariant FirstDead(actors, 0) == FirstDead(actors, slot)
      {
        slot := slot + 1;
      }
    }

    method SpawnActor(entry: nat) returns (slot: int)
      requires Valid()
      modifies this`actors, mem, mem.bitmap, mem.freeList, paging
      ensures Valid() && (State(), slot) == Spawn(old(State()), entry)
      ensures mem.bitmap == old(mem.bitmap) && mem.freeList == old(mem.freeList)
    {
      var dead := FindDead();
      if dead == |actors| {
        return -1;
      }
      ghost var k := State();
      var page := mem.AllocatePage();
      assert State() == k.(mem := PageFrames.AllocPage(k.mem).0);
      if page.None? {
        return -1;
      }
      slot := Occupy(dead, page.value, entry);
    }

    /** The slot's tables and row, or the page back. */
    method Occupy(dead: nat, page: nat, entry: nat) returns (slot: int)
      requires Valid() && dead < |actors|
      modifies this`actors, mem, mem.freeList, paging
      ensures Valid() && mem.bitmap == old(mem.bitmap) && mem.freeList == old(mem.freeList)
      ensures var (k, (spaces, cr3)) := (old(State()), Paging.CreateSpace(old(State()).spaces, dead, page, STACK_SIZE));
              if cr3 == 0 then slot == -1 && State() == k.(mem := PageFrames.FreePage(k.mem, page))
              else slot == dead
                   && State() == k.(spaces := spaces, actors := k.actors[dead := Fresh(k.actors[dead], cr3, page, entry)])
    {
      var cr3 := paging.Create(dead, page, STACK_SIZE);
      if cr3 == 0 {
        mem.Release(page);
        return -1;
      }
      actors := actors[dead := Fresh(actors[dead], cr3, page, entry)];
      return dead;
    }

    method SpawnLoaded(phys: nat, size: nat, entryOffset: nat) returns (slot: int)
      requires Valid()
      modifies this`actors, mem, mem.bitmap, mem.freeList, paging
      ensures Valid() && (State(), slot) == SpawnProgram(old(State()), phys, size, entryOffset)
      ensures mem.bitmap == old(mem.bitmap) && mem.freeList == old(mem.freeList)
    {
      ghost var k := State();
      slot := SpawnActor(Paging.PROGRAM_VBASE + entryOffset);
      SpawnedOrNot(k, phys, size, entryOffset);
      if slot < 0 {
        return -1;
      }
      slot := MapOrGiveUp(slot, phys, size);
    }

    /** Maps the program into the new slot, or marks the slot DEAD again. */
    method MapOrGiveUp(slot: int, phys: nat, size: nat) returns (r: int)
      requires Valid() && SlotOk(State(), slot)
      modifies this`actors, paging
      ensures Valid() && (State(), r) == Mapped(old(State()), slot, phys, size)
    {
      var ok := paging.MapProgramWindow(slot, phys, size);
      if !ok {
        actors := actors[slot := actors[slot].(state := Dead)];
        return -1;
      }
      return slot;
    }

    method CanSpawn() returns (b: bool)
      requires Valid() && Started(State())
      ensures b == MaySpawn(State())
    {
      b := HasCapability(current, CAP_SPAWN, 0);
      if b && actors[current].spawnCount >= actors[current].spawnQuota {
        b := false;
      }
    }

    /** The spawner's half: its count, and authority over the child. */
    method AdoptAsParent(spawner: int, child: int)
      requires Valid() && SlotOk(State(), spawner) && SlotOk(State(), child)
      modifies this`actors
      ensures Valid()
      ensures var (k, a) := (old(State()), old(actors[spawner]));
              State() == SetActor(k, spawner, AddCaps(a.(spawnCount := a.spawnCount + 1),
                                                      [Capability(CAP_SEND, child), Capability(CAP_TERMINATE, child)]))
    {
      ghost var k := State();
      actors := actors[spawner := actors[spawner].(spawnCount := actors[spawner].spawnCount + 1)];
      ghost var a := actors[spawner];
      var _ := AddCapability(spawner, CAP_SEND, child);
      var _ := AddCapability(spawner, CAP_TERMINATE, child);
      TwoCaps(a, Capability(CAP_SEND, child), Capability(CAP_TERMINATE, child));
    }

    /** The grants at the end of both checked spawns; a full table is not an error. */
    method AdoptChild(spawner: int, child: int)
      requires Valid() && SlotOk(State(), spawner) && SlotOk(State(), child)
      modifies this`actors
      ensures Valid() && State() == Adopt(old(State()), spawner, child)
    {
      AdoptAsParent(spawner, child);
      var _ := AddCapability(child, CAP_SEND, spawner);
    }

    method SpawnAsChild(entry: nat) returns (child: int)
      requires Valid() && Started(State())
      modifies this`actors, mem, mem.bitmap, mem.freeList, paging
      ensures Valid() && (State(), child) == SpawnChild(old(State()), entry)
    {
      var allowed := CanSpawn();
      if !allowed {
        return -1;
      }
      child := SpawnActor(entry);
      if child < 0 {
        return -1;
      }
      AdoptChild(current, child);
    }

    method SpawnLoadedAsChild(phys: nat, size: nat, entryOffset: nat) returns (child: int)
      requires Valid() && Started(State())
      modifies this`actors, mem, mem.bitmap, mem.freeList, paging
      ensures Valid() && (State(), child) == SpawnProgramChild(old(State()), phys, size, entryOffset)
    {
      var allowed := CanSpawn();
      if !allowed {
        return -1;
      }
      child := SpawnLoaded(phys, size, entryOffset);
      if child < 0 {
        return -1;
      }
      AdoptChild(current, child);
    }

    method TerminateActor(target: int) returns (rc: int)
      requires Valid() && Started(State())
      modifies this`actors
      ensures Valid() && (State(), rc) == Terminate(old(State()), target)
    {
      if target < 0 || target >= |actors| || target == current {
        return -1;
      }
      var allowed := HasCapability(current, CAP_TERMINATE, target);
      if !allowed {
        return -1;
      }
      actors := actors[target := actors[target].(state := Dead)];
      return 0;
    }

    /** loader_spawn_program; the copy into the claimed pages is not modelled. */
    method LoadAndSpawn(id: int) returns (child: int)
      requires Valid() && Started(State())
      modifies this`actors, mem, mem.bitmap, mem.freeList, paging
      ensures Valid() && (State(), child) == LoadProgram(old(State()), id)
    {
      var bytes := store.ReadObject(id, Directory.OBJECT_MAX_BYTES);
      if bytes.None? {
        return -1;
      }
      var image := ParseProgram(bytes.value);
      if image.None? {
        return -1;
      }
      var pages := (image.value.codeSize + PageFrames.PAGE_SIZE - 1) / PageFrames.PAGE_SIZE;
      var phys := mem.AllocDmaPages(pages);
      if phys.None? {
        return -1;
      }
      child := SpawnLoadedAsChild(phys.value, pages * PageFrames.PAGE_SIZE, image.value.entryOffset);
    }

    /** SYS_CREATE_NAME after its capability check. */
    method CreateName(name: Directory.CString) returns (r: int)
      requires Valid() && Started(State())
      modifies this`actors, store
      ensures Valid() && (State(), Code(r)) == CreateByActor(old(State()), name)
    {
      r := store.CreateStrict(name);
      if r < 0 {
        return -1;
      }
      AddOwnerCaps(r);
    }

    /** Four grants in a row, each as far as the table has room. */
    method AddOwnerCaps(id: int)
      requires Valid() && Started(State())
      modifies this`actors
      ensures Valid() && State() == SetMe(old(State()), AddCaps(old(actors[current]), OwnerCaps(id)))
    {
      ghost var a := actors[current];
      ghost var table := actors;
      var _ := AddCapability(current, CAP_READ_OBJECT, id);
      var _ := AddCapability(current, CAP_WRITE_OBJECT, id);
      assert actors == table[current := actors[current]];
      var _ := AddCapability(current, CAP_RENAME_OBJECT, id);
      var _ := AddCapability(current, CAP_DELETE_OBJECT, id);
      assert actors == table[current := actors[current]];
      FourCaps(a, OwnerCaps(id));
    }

    // ---- the syscall gate ---------------------------------------------------------------------

    /** The half of the storage calls that work on an object's bytes and trust. */
    method ContentSyscall(e: Event) returns (r: Outcome)
      requires Valid() && Started(State()) && (e.SysRead? || e.SysWriteObject? || e.SysPromote? || e.SysReject?)
      modifies store
      ensures Valid() && (State(), r) == StoreStep(old(State()), e)
    {
      match e
      case SysRead(id, len) =>
        var allowed := HasCapability(current, CAP_READ_OBJECT, id);
        if !allowed {
          return Bytes(None);
        }
        var bytes := store.ReadObject(id, len);
        return Bytes(bytes);
      case SysWriteObject(id, buf) =>
        var allowed := HasCapability(current, CAP_WRITE_OBJECT, id);
        if !allowed {
          return Code(-1);
        }
        var rc := store.WriteObject(id, buf);
        return Code(rc);
      case SysPromote(id) =>
        var allowed := HasCapability(current, CAP_PROMOTE_OBJECT, 0);
        if !allowed {
          return Code(-1);
        }
        var rc := store.PromoteObject(id);
        return Code(rc);
      case SysReject(id) =>
        var allowed := HasCapability(current, CAP_PROMOTE_OBJECT, 0);
        if !allowed {
          return Code(-1);
        }
        var rc := store.RejectObject(id);
        return Code(rc);
    }

    /** The half that works on names. */
    method NamingSyscall(e: Event) returns (r: Outcome)
      requires Valid() && Started(State()) && (e.SysLookup? || e.SysList? || e.SysRename? || e.SysDelete?)
      modifies store
      ensures Valid() && (State(), r) == StoreStep(old(State()), e)
    {
      match e
      case SysLookup(name) =>
        var rc := store.FindByName(name);
        return Code(rc);
      case SysList(nth) =>
        var allowed := HasCapability(current, CAP_LIST_NAMES, 0);
        if !allowed {
          return Code(-1);
        }
        var entry := store.GetByIndex(nth);
        return Listed(entry);
      case SysRename(id, name) =>
        var allowed := HasCapability(current, CAP_RENAME_OBJECT, id);
        if !allowed {
          return Code(-1);
        }
        var rc := store.RenameObject(id, name);
        return Code(rc);
      case SysDelete(id) =>
        var allowed := HasCapability(current, CAP_DELETE_OBJECT, id);
        if !allowed {
          return Code(-1);
        }
        var rc := store.DeleteObject(id);
        return Code(rc);
    }

    method StoreSyscall(e: Event) returns (r: Outcome)
      requires Valid() && Started(State()) && IsStoreCall(e)
      modifies store
      ensures Valid() && (State(), r) == StoreStep(old(State()), e)
    {
      if e.SysRead? || e.SysWriteObject? || e.SysPromote? || e.SysReject? {
        r := ContentSyscall(e);
      } else {
        r := NamingSyscall(e);
      }
    }

    /** The calls that end in the scheduler or move a message. */
    method MessageSyscall(e: Event) returns (r: Outcome)
      requires Valid() && Started(State()) && !IsBoot(e) && !IsStoreCall(e)
      requires e.Timer? || e.SysYield? || e.SysExit? || e.Resume? || e.SysReceive? || e.SysSend? || e.SysGrant?
      modifies this, mem, mem.bitmap, mem.freeList
      ensures Valid() && (State(), r) == ActorStep(old(State()), e)
    {
      match e
      case Timer => YieldNow(); return Suspended;
      case SysYield => YieldNow(); return Suspended;
      case SysExit => ExitNow(); return Suspended;
      case Resume =>
        var m := ReceiveMessage();
        return if m.None? then Suspended else Received(m.value);
      case SysReceive =>
        var m := ReceiveMessage();
        return if m.None? then Suspended else Received(m.value);
      case SysSend(dest, mtype, data) =>
        var rc := SendMessage(dest, mtype, data);
        return Code(rc);
      case SysGrant(dest, op, target) =>
        var rc := DelegateCap(dest, op, target);
        return Code(rc);
    }

    /** The calls that make or unmake something, and the devices. */
    method LifeSyscall(e: Event) returns (r: Outcome)
      requires Valid() && Started(State()) && !IsBoot(e) && !IsStoreCall(e)
      requires e.SysSpawn? || e.SysTerminate? || e.SysSpawnProgram? || e.SysCreate? || e.SysDevice?
      modifies this, mem, mem.bitmap, mem.freeList, paging, store
      ensures Valid() && (State(), r) == ActorStep(old(State()), e)
    {
      match e
      case SysSpawn(entry) =>
        var rc := SpawnAsChild(entry);
        return Code(rc);
      case SysTerminate(target) =>
        var rc := TerminateActor(target);
        return Code(rc);
      case SysSpawnProgram(id) =>
        var allowed := HasCapability(current, CAP_READ_OBJECT, id);
        if !allowed {
          return Code(-1);
        }
        var rc := LoadAndSpawn(id);
        return Code(rc);
      case SysCreate(name) =>
        var allowed := HasCapability(current, CAP_CREATE_OBJECT, 0);
        if !allowed {
          return Code(-1);
        }
        var rc := CreateName(name);
        return Code(rc);
      case SysDevice(op) =>
        var allowed := HasCapability(current, op, 0);
        return Code(if op == 0 || allowed then 0 else -1);
    }

    method ActorSyscall(e: Event) returns (r: Outcome)
      requires Valid() && Started(State()) && !IsBoot(e) && !IsStoreCall(e)
      modifies this, mem, mem.bitmap, mem.freeList, paging, store
      ensures Valid() && (State(), r) == ActorStep(old(State()), e)
    {
      if e.SysSpawn? || e.SysTerminate? || e.SysSpawnProgram? || e.SysCreate? || e.SysDevice? {
        r := LifeSyscall(e);
      } else {
        r := MessageSyscall(e);
      }
    }

    /** The kernel's setup calls, before the scheduler starts. */
    method BootCall(e: Event) returns (r: Outcome)
      requires Valid() && Enabled(State(), e) && IsBoot(e)
      modifies this, mem, mem.bitmap, mem.freeList, paging, store
      ensures Valid() && (State(), r) == BootStep(old(State()), e)
    {
      match e
      case BootSpawn(entry) =>
        var rc := SpawnActor(entry);
        return Code(rc);
      case BootGrant(dest, op, target) =>
        var rc := Grant(dest, op, target);
        return Code(rc);
      case BootQuota(slot, quota) =>
        if slot < 0 || slot >= |actors| {
          return Code(-1);
        }
        actors := actors[slot := actors[slot].(spawnQuota := quota)];
        return Code(0);
      case BootWindow(slot, window) =>
        if slot < 0 || slot >= |actors| {
          return Code(-1);
        }
        actors := actors[slot := actors[slot].(window := window)];
        return Code(0);
      case BootCreate(name) =>
        var rc := store.CreateAtBoot(name);
        return Code(rc);
      case BootWrite(id, buf) =>
        var rc := store.WriteObject(id, buf);
        return Code(rc);
      case Start =>
        SwitchToNext();
        return Suspended;
    }

    /** Whatever the kernel is asked to do, it takes exactly the step of the model. */
    method Handle(e: Event) returns (r: Outcome)
      requires Valid() && Enabled(State(), e)
      modifies this, mem, mem.bitmap, mem.freeList, paging, store
      ensures Valid() && (State(), r) == Step(old(State()), e)
    {
      if IsBoot(e) {
        r := BootCall(e);
      } else if IsStoreCall(e) {
        r := StoreSyscall(e);
      } else {
        r := ActorSyscall(e);
      }
    }
  }

  /** actor_spawn_program, once the slot is there. */
  function Mapped(k: Kernel, slot: int, phys: nat, size: nat): (r: (Kernel, int))
    requires WF(k) && SlotOk(k, slot)
    ensures WF(r.0)
  {
    var (spaces, ok) := Paging.MapProgram(k.spaces, slot, phys, size);
    var k' := k.(spaces := spaces);
    if !ok then (SetActor(k', slot, k'.actors[slot].(state := Dead)), -1) else (k', slot)
  }

  lemma SpawnedOrNot(k: Kernel, phys: nat, size: nat, entryOffset: nat)
    requires WF(k)
    ensures var (k1, slot) := Spawn(k, Paging.PROGRAM_VBASE + entryOffset);
            && (slot >= 0 ==> SlotOk(k1, slot))
            && SpawnProgram(k, phys, size, entryOffset) == if slot < 0 then (k1, -1) else Mapped(k1, slot, phys, size)
  {
  }

  /** The table after the first i slots have been looked at. */
  ghost function Reaped(k: Kernel, i: nat): (r: Kernel)
    requires WF(k) && i <= |k.actors|
    ensures WF(r) && |r.actors| == |k.actors|
  {
    if i == 0 then k else ReapSlot(Reaped(k, i - 1), i - 1)
  }

  lemma {:induction false} ReapedAll(k: Kernel, i: nat)
    requires WF(k) && i <= |k.actors|
    ensures ReapFrom(Reaped(k, i), i) == ReapFrom(k, 0)
  {
    if i > 0 {
      ReapedAll(k, i - 1);
      ReapUnfold(Reaped(k, i - 1), i - 1, Reaped(k, i));
    }
  }

  lemma ReapUnfold(k: Kernel, i: nat, k1: Kernel)
    requires WF(k) && WF(k1) && i < |k.actors| == |k1.actors| && k1 == ReapSlot(k, i)
    ensures ReapFrom(k, i) == ReapFrom(k1, i + 1)
  {
  }

  lemma TwoCaps(a: Actor, c: Capability, d: Capability)
    ensures AddCaps(a, [c, d]) == AddCap(AddCap(a, c.op, c.target).0, d.op, d.target).0
  {
    assert [c, d][1..] == [d];
    assert AddCaps(AddCap(a, c.op, c.target).0, [d]) == AddCaps(AddCap(AddCap(a, c.op, c.target).0, d.op, d.target).0, []);
  }

  lemma FourCaps(a: Actor, cs: seq<Capability>)
    requires |cs| == 4
    ensures var a1 := AddCap(a, cs[0].op, cs[0].target).0;
            var a2 := AddCap(a1, cs[1].op, cs[1].target).0;
            var a3 := AddCap(a2, cs[2].op, cs[2].target).0;
            AddCaps(a, cs) == AddCap(a3, cs[3].op, cs[3].target).0
  {
    var a1 := AddCap(a, cs[0].op, cs[0].target).0;
    var a2 := AddCap(a1, cs[1].op, cs[1].target).0;
    assert AddCaps(a, cs) == AddCaps(a1, cs[1..]);
    assert cs[1..][1..] == cs[2..];
    assert AddCaps(a1, cs[1..]) == AddCaps(a2, cs[2..]);
    assert cs[2..] == [cs[2], cs[3]];
    TwoCaps(a2, cs[2], cs[3]);
  }
}
