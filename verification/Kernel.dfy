/**
  The whole kernel as one state machine: core/actor.c, core/loader.c and the
  dispatch in hal/x86_64/syscall.c over the page allocator, the page tables and
  the object store. Every syscall is one atomic step, because it runs behind an
  interrupt gate; actor_receive alone splits into a blocking and a resuming step.
 */
module Kernel {
  import opened Options
  import opened Words
  import opened ActorTable
  import PageFrames
  import Paging
  import Directory
  import StoreSpec

  const FAILED: int := -1
  const STACK_SIZE: nat := 4096
  const MAX_SPAWNS_PER_ACTOR: int := 2
  const CONSOLE_WIN_LOG: int := 0
  const PROGRAM_MAGIC: nat := 0x524A4156
  const HEADER_SIZE: nat := 12

  datatype Kernel = Kernel(actors: seq<Actor>, current: int, halted: bool,
                           mem: PageFrames.Mem, spaces: Paging.Spaces, store: StoreSpec.Store)

  predicate WF(k: Kernel) {
    && 0 < |k.actors|
    && -1 <= k.current < |k.actors|
    && (forall i :: 0 <= i < |k.actors| ==> ActorOk(k.actors[i]))
    && PageFrames.WellFormed(k.mem)
    && k.spaces.Sized() && |k.spaces.pml4| == |k.actors| && 0 < k.spaces.layout.pml4
    && StoreSpec.StoreWF(k.store)
  }

  predicate Started(k: Kernel) {
    WF(k) && 0 <= k.current && !k.halted
  }

  predicate SlotOk(k: Kernel, i: int) {
    0 <= i < |k.actors|
  }

  /** The running actor. */
  function Me(k: Kernel): Actor
    requires Started(k)
  {
    k.actors[k.current]
  }

  function SetActor(k: Kernel, i: nat, a: Actor): (r: Kernel)
    requires WF(k) && SlotOk(k, i) && ActorOk(a)
    ensures WF(r)
  {
    k.(actors := k.actors[i := a])
  }

  function SetMe(k: Kernel, a: Actor): (r: Kernel)
    requires Started(k) && ActorOk(a)
    ensures Started(r)
  {
    SetActor(k, k.current, a)
  }

  // ---- scheduling ---------------------------------------------------------------

  /** Gives a dead actor's stack page back; the current slot is skipped, it may still be on its stack. */
  function ReapSlot(k: Kernel, i: nat): (r: Kernel)
    requires WF(k) && SlotOk(k, i)
    ensures WF(r)
  {
    var a := k.actors[i];
    if i != k.current && a.state.Dead? && a.stackPage != 0 then
      k.(mem := PageFrames.FreePage(k.mem, a.stackPage), actors := k.actors[i := a.(stackPage := 0)])
    else k
  }

  /** reap_dead_actors from slot i on. */
  function ReapFrom(k: Kernel, i: nat): (r: Kernel)
    requires WF(k) && i <= |k.actors|
    ensures WF(r) && |r.actors| == |k.actors| && r == k.(actors := r.actors, mem := r.mem)
    decreases |k.actors| - i
  {
    if i == |k.actors| then k else ReapFrom(ReapSlot(k, i), i + 1)
  }

  /** Reaping touches nothing of a row but its stack page. */
  lemma {:induction false} ReapRows(k: Kernel, i: nat)
    requires WF(k) && i <= |k.actors|
    ensures var r := ReapFrom(k, i);
            forall j :: 0 <= j < |k.actors| ==> r.actors[j] == k.actors[j].(stackPage := r.actors[j].stackPage)
    decreases |k.actors| - i
  {
    if i < |k.actors| {
      ReapRows(ReapSlot(k, i), i + 1);
    }
  }

  /** Round robin: the first runnable slot i, i + 1, ... places after `start`, or -1. */
  function PickFrom(actors: seq<Actor>, start: nat, i: nat): (r: int)
    requires start < |actors| && 1 <= i <= |actors| + 1
    ensures r == -1 || (0 <= r < |actors| && Runnable(actors[r]))
    decreases |actors| + 1 - i
  {
    if i > |actors| then -1
    else
      var idx := Wrap(start + i, |actors|);
      if Runnable(actors[idx]) then idx else PickFrom(actors, start, i + 1)
  }

  /** Switch to slot `next`, or halt when it is -1. */
  function SwitchTo(k: Kernel, next: int): (r: Kernel)
    requires WF(k) && (next == -1 || SlotOk(k, next))
    ensures WF(r)
  {
    if next == -1 then k.(halted := true)
    else k.(current := next, actors := k.actors[next := k.actors[next].(state := Running)])
  }

  function ScheduleNext(k: Kernel): (r: Kernel)
    requires WF(k) && !k.halted
    ensures WF(r)
  {
    var k1 := ReapFrom(k, 0);
    SwitchTo(k1, PickFrom(k1.actors, if k.current < 0 then 0 else k.current, 1))
  }

  /** actor_yield, also what the timer interrupt does to whoever is running. */
  function Yield(k: Kernel): (r: Kernel)
    requires Started(k)
    ensures WF(r)
  {
    ScheduleNext(SetMe(k, Me(k).(state := Ready)))
  }

  function Exit(k: Kernel): (r: Kernel)
    requires Started(k)
    ensures WF(r)
  {
    ScheduleNext(SetMe(k, Me(k).(state := Dead)))
  }

  // ---- messages -------------------------------------------------------------------

  function Send(k: Kernel, dest: int, mtype: u64, data: u64): (r: (Kernel, int))
    requires Started(k)
    ensures WF(r.0)
  {
    if !SlotOk(k, dest) || !HasCap(Me(k), CAP_SEND, dest) then (k, -1)
    else
      var d := k.actors[dest];
      if d.state.Dead? || d.count >= |d.mailbox| then (k, -1)
      else
        var d' := Enqueue(d, Message(mtype, k.current, data));
        (SetActor(k, dest, if d.state.Blocked? then d'.(state := Ready) else d'), 0)
  }

  /** One round of actor_receive's loop: take the oldest message, or block and reschedule. */
  function Receive(k: Kernel): (r: (Kernel, Option<Message>))
    requires Started(k)
    ensures WF(r.0)
  {
    if Me(k).count == 0 then (ScheduleNext(SetMe(k, Me(k).(state := Blocked, inReceive := true))), None)
    else (SetMe(k, Dequeue(Me(k)).(inReceive := false)), Some(Front(Me(k))))
  }

  // ---- authority --------------------------------------------------------------------

  function GrantTo(k: Kernel, dest: int, op: int, target: int): (r: (Kernel, int))
    requires WF(k)
    ensures WF(r.0)
  {
    if !SlotOk(k, dest) then (k, -1)
    else var (a, rc) := AddCap(k.actors[dest], op, target); (SetActor(k, dest, a), rc)
  }

  function Delegate(k: Kernel, dest: int, op: int, target: int): (r: (Kernel, int))
    requires Started(k)
    ensures WF(r.0)
  {
    if !SlotOk(k, dest) || !HasCap(Me(k), op, target) then (k, -1) else GrantTo(k, dest, op, target)
  }

  // ---- lifecycle --------------------------------------------------------------------

  function FirstDead(actors: seq<Actor>, i: nat): (r: nat)
    requires i <= |actors|
    ensures i <= r <= |actors|
    ensures r < |actors| ==> actors[r].state.Dead?
    ensures forall j :: i <= j < r ==> !actors[j].state.Dead?
    decreases |actors| - i
  {
    if i == |actors| || actors[i].state.Dead? then i else FirstDead(actors, i + 1)
  }

  /** A fresh occupant: nothing of its predecessor but the ring's and the table's storage. */
  function Fresh(a: Actor, cr3: nat, stackPage: nat, entry: nat): (r: Actor)
    requires ActorOk(a)
    ensures ActorOk(r)
  {
    Actor(Ready, cr3, stackPage, entry, a.mailbox, 0, 0, seq(|a.caps|, i => NO_CAP),
          0, MAX_SPAWNS_PER_ACTOR, CONSOLE_WIN_LOG, false)
  }

  /** actor_spawn. */
  function Spawn(k: Kernel, entry: nat): (r: (Kernel, int))
    requires WF(k)
    ensures WF(r.0) && -1 <= r.1 < |k.actors|
  {
    var slot := FirstDead(k.actors, 0);
    if slot == |k.actors| then (k, FAILED)
    else
      var (mem, page) := PageFrames.AllocPage(k.mem);
      if page.None? then (k.(mem := mem), FAILED)
      else
        var (spaces, cr3) := Paging.CreateSpace(k.spaces, slot, page.value, STACK_SIZE);
        if cr3 == 0 then (k.(mem := PageFrames.FreePage(mem, page.value)), FAILED)
        else
          (k.(mem := mem, spaces := spaces,
              actors := k.actors[slot := Fresh(k.actors[slot], cr3, page.value, entry)]),
           slot)
  }

  /** actor_spawn_program. */
  function SpawnProgram(k: Kernel, phys: nat, size: nat, entryOffset: nat): (r: (Kernel, int))
    requires WF(k)
    ensures WF(r.0) && -1 <= r.1 < |k.actors|
  {
    var (k1, slot) := Spawn(k, Paging.PROGRAM_VBASE + entryOffset);
    if slot < 0 then (k1, -1)
    else
      var (spaces, ok) := Paging.MapProgram(k1.spaces, slot, phys, size);
      var k2 := k1.(spaces := spaces);
      if !ok then (SetActor(k2, slot, k2.actors[slot].(state := Dead)), -1)
      else (k2, slot)
  }

  /** May the running actor spawn at all, and is it below its quota? */
  predicate MaySpawn(k: Kernel)
    requires Started(k)
  {
    HasCap(Me(k), CAP_SPAWN, 0) && Me(k).spawnCount < Me(k).spawnQuota
  }

  /** The parent and child authority every successful spawn by an actor ends with. */
  function Adopt(k: Kernel, spawner: int, child: int): (r: Kernel)
    requires WF(k) && SlotOk(k, spawner) && SlotOk(k, child)
    ensures WF(r)
  {
    var a := k.actors[spawner];
    var a' := AddCaps(a.(spawnCount := a.spawnCount + 1), [Capability(CAP_SEND, child), Capability(CAP_TERMINATE, child)]);
    var k1 := SetActor(k, spawner, a');
    SetActor(k1, child, AddCap(k1.actors[child], CAP_SEND, spawner).0)
  }

  /** actor_spawn_child. */
  function SpawnChild(k: Kernel, entry: nat): (r: (Kernel, int))
    requires Started(k)
    ensures WF(r.0) && -1 <= r.1 < |k.actors|
  {
    if !MaySpawn(k) then (k, -1)
    else
      var (k1, child) := Spawn(k, entry);
      if child < 0 then (k1, -1) else (Adopt(k1, k.current, child), child)
  }

  /** actor_spawn_program_child. */
  function SpawnProgramChild(k: Kernel, phys: nat, size: nat, entryOffset: nat): (r: (Kernel, int))
    requires Started(k)
    ensures WF(r.0) && -1 <= r.1 < |k.actors|
  {
    if !MaySpawn(k) then (k, -1)
    else
      var (k1, child) := SpawnProgram(k, phys, size, entryOffset);
      if child < 0 then (k1, -1) else (Adopt(k1, k.current, child), child)
  }

  function Terminate(k: Kernel, target: int): (r: (Kernel, int))
    requires Started(k)
    ensures WF(r.0)
  {
    if !SlotOk(k, target) || target == k.current || !HasCap(Me(k), CAP_TERMINATE, target) then (k, -1)
    else (SetActor(k, target, k.actors[target].(state := Dead)), 0)
  }

  // ---- the program loader --------------------------------------------------------------

  datatype Image = Image(entryOffset: nat, codeSize: nat)

  /** Header validation; None is every reason to refuse the object. */
  function ParseProgram(bytes: seq<byte>): (r: Option<Image>)
    ensures r.Some? ==> && 0 < r.value.codeSize <= Paging.PROGRAM_WINDOW_MAX
                        && r.value.entryOffset < r.value.codeSize
                        && HEADER_SIZE + r.value.codeSize <= |bytes|
  {
    if |bytes| < HEADER_SIZE then None
    else
      var magic := FromLittleEndian(bytes[0..4]);
      var entryOffset := FromLittleEndian(bytes[4..8]);
      var codeSize := FromLittleEndian(bytes[8..12]);
      if magic != PROGRAM_MAGIC then None
      else if codeSize == 0 || codeSize > Paging.PROGRAM_WINDOW_MAX then None
      else if |bytes| < HEADER_SIZE + codeSize then None
      else if entryOffset >= codeSize then None
      else Some(Image(entryOffset, codeSize))
  }

  function PagesFor(size: nat): nat {
    (size + PageFrames.PAGE_SIZE - 1) / PageFrames.PAGE_SIZE
  }

  /** loader_spawn_program: the pages are claimed before the spawn quota is looked at. */
  function LoadProgram(k: Kernel, id: int): (r: (Kernel, int))
    requires Started(k)
    ensures WF(r.0) && -1 <= r.1 < |k.actors|
  {
    var bytes := StoreSpec.Read(k.store, id, Directory.OBJECT_MAX_BYTES);
    if bytes.None? then (k, -1)
    else
      var image := ParseProgram(bytes.value);
      if image.None? then (k, -1)
      else
        var pages := PagesFor(image.value.codeSize);
        var (mem, phys) := PageFrames.DmaPages(k.mem, pages);
        if phys.None? then (k, -1)
        else SpawnProgramChild(k.(mem := mem), phys.value, pages * PageFrames.PAGE_SIZE, image.value.entryOffset)
  }

  // ---- the step relation ----------------------------------------------------------------

  datatype Event =
    // kernel_main, before the scheduler starts
    | BootSpawn(entry: nat)
    | BootGrant(dest: int, op: int, target: int)
    | BootQuota(slot: int, quota: int)
    | BootWindow(slot: int, window: int)
    | BootCreate(name: Directory.CString)
    | BootWrite(id: int, buf: seq<byte>)
    | Start
    // the timer interrupt, and the continuation of a receive that blocked
    | Timer
    | Resume
    // system calls of the running actor
    | SysYield
    | SysExit
    | SysSend(dest: int, mtype: u64, data: u64)
    | SysReceive
    | SysGrant(dest: int, op: int, target: int)
    | SysSpawn(entry: nat)
    | SysTerminate(target: int)
    | SysRead(id: int, len: nat)
    | SysWriteObject(id: int, buf: seq<byte>)
    | SysPromote(id: int)
    | SysReject(id: int)
    | SysSpawnProgram(id: int)
    | SysLookup(name: Directory.CString)
    | SysList(nth: int)
    | SysCreate(name: Directory.CString)
    | SysRename(id: int, name: Directory.CString)
    | SysDelete(id: int)
    // console, keyboard, clock and network calls: gated by `op` (0: ungated), no effect on these tables
    | SysDevice(op: int)

  predicate IsBoot(e: Event) {
    e.BootSpawn? || e.BootGrant? || e.BootQuota? || e.BootWindow? || e.BootCreate? || e.BootWrite? || e.Start?
  }

  predicate IsStoreCall(e: Event) {
    || e.SysRead? || e.SysWriteObject? || e.SysPromote? || e.SysReject? || e.SysLookup? || e.SysList?
    || e.SysRename? || e.SysDelete?
  }

  /** Boot events come first; afterwards an actor inside actor_receive can only be resumed or preempted. */
  predicate Enabled(k: Kernel, e: Event) {
    && WF(k) && !k.halted
    && (if IsBoot(e) then k.current == -1
        else 0 <= k.current && (e.Timer? || (e.Resume? <==> Me(k).inReceive)))
  }

  /** Listed is SYS_LIST_OBJECTS' 1 with the filled record, or its 0. */
  datatype Outcome =
    | Code(code: int)
    | Received(msg: Message)
    | Suspended
    | Bytes(bytes: Option<seq<byte>>)
    | Listed(entry: Option<StoreSpec.Listing>)

  /** The slot a system call spawned into, or -1. */
  function Child(e: Event, out: Outcome): int {
    if (e.SysSpawn? || e.SysSpawnProgram?) && out.Code? then out.code else -1
  }

  function Coded(r: (Kernel, int)): (Kernel, Outcome) {
    (r.0, Code(r.1))
  }

  function Stored(k: Kernel, r: (StoreSpec.Store, int)): (Kernel, Outcome) {
    (k.(store := r.0), Code(r.1))
  }

  function Denied(k: Kernel): (Kernel, Outcome) {
    (k, Code(-1))
  }

  function OwnerCaps(id: int): seq<Capability> {
    [Capability(CAP_READ_OBJECT, id), Capability(CAP_WRITE_OBJECT, id),
     Capability(CAP_RENAME_OBJECT, id), Capability(CAP_DELETE_OBJECT, id)]
  }

  /** SYS_CREATE_NAME: the creator gets four capabilities for the new id, as far as its table has room. */
  function CreateByActor(k: Kernel, name: Directory.CString): (r: (Kernel, Outcome))
    requires Started(k)
    ensures WF(r.0)
  {
    var (store, id) := StoreSpec.CreateNamed(k.store, name);
    if id < 0 then (k.(store := store), Code(-1))
    else (SetMe(k.(store := store), AddCaps(Me(k), OwnerCaps(id))), Code(id))
  }

  function BootStep(k: Kernel, e: Event): (r: (Kernel, Outcome))
    requires Enabled(k, e) && IsBoot(e)
    ensures WF(r.0)
  {
    match e
    case BootSpawn(entry) => Coded(Spawn(k, entry))
    case BootGrant(dest, op, target) => Coded(GrantTo(k, dest, op, target))
    case BootQuota(slot, quota) =>
      if !SlotOk(k, slot) then Denied(k) else (SetActor(k, slot, k.actors[slot].(spawnQuota := quota)), Code(0))
    case BootWindow(slot, window) =>
      if !SlotOk(k, slot) then Denied(k) else (SetActor(k, slot, k.actors[slot].(window := window)), Code(0))
    case BootCreate(name) => Stored(k, StoreSpec.CreateObject(k.store, name))
    case BootWrite(id, buf) => Stored(k, StoreSpec.Write(k.store, id, buf))
    case Start => (ScheduleNext(k), Suspended)
  }

  function ReceiveStep(k: Kernel): (r: (Kernel, Outcome))
    requires Started(k)
    ensures WF(r.0)
  {
    var (k', m) := Receive(k);
    (k', if m.None? then Suspended else Received(m.value))
  }

  /** The storage half of syscall_handler: check the capability, then call core/storage.c. */
  function StoreStep(k: Kernel, e: Event): (r: (Kernel, Outcome))
    requires Started(k)
    requires IsStoreCall(e)
    ensures WF(r.0)
  {
    match e
    case SysRead(id, len) =>
      if HasCap(Me(k), CAP_READ_OBJECT, id) then (k, Bytes(StoreSpec.Read(k.store, id, len))) else (k, Bytes(None))
    case SysWriteObject(id, buf) =>
      if HasCap(Me(k), CAP_WRITE_OBJECT, id) then Stored(k, StoreSpec.Write(k.store, id, buf)) else Denied(k)
    case SysPromote(id) =>
      if HasCap(Me(k), CAP_PROMOTE_OBJECT, 0) then Stored(k, StoreSpec.Promote(k.store, id)) else Denied(k)
    case SysReject(id) =>
      if HasCap(Me(k), CAP_PROMOTE_OBJECT, 0) then Stored(k, StoreSpec.Reject(k.store, id)) else Denied(k)
    case SysLookup(name) => (k, Code(StoreSpec.Lookup(k.store, name)))
    case SysList(nth) =>
      if HasCap(Me(k), CAP_LIST_NAMES, 0) then (k, Listed(StoreSpec.GetByIndex(k.store, nth))) else Denied(k)
    case SysRename(id, name) =>
      if HasCap(Me(k), CAP_RENAME_OBJECT, id) then Stored(k, StoreSpec.Rename(k.store, id, name)) else Denied(k)
    case SysDelete(id) =>
      if HasCap(Me(k), CAP_DELETE_OBJECT, id) then Stored(k, StoreSpec.Delete(k.store, id)) else Denied(k)
  }

  function ActorStep(k: Kernel, e: Event): (r: (Kernel, Outcome))
    requires Started(k) && !IsBoot(e) && !IsStoreCall(e)
    ensures WF(r.0)
  {
    match e
    case Timer => (Yield(k), Suspended)
    case Resume => ReceiveStep(k)
    case SysYield => (Yield(k), Suspended)
    case SysExit => (Exit(k), Suspended)
    case SysSend(dest, mtype, data) => Coded(Send(k, dest, mtype, data))
    case SysReceive => ReceiveStep(k)
    case SysGrant(dest, op, target) => Coded(Delegate(k, dest, op, target))
    case SysSpawn(entry) => Coded(SpawnChild(k, entry))
    case SysTerminate(target) => Coded(Terminate(k, target))
    case SysSpawnProgram(id) =>
      if HasCap(Me(k), CAP_READ_OBJECT, id) then Coded(LoadProgram(k, id)) else Denied(k)
    case SysCreate(name) =>
      if HasCap(Me(k), CAP_CREATE_OBJECT, 0) then CreateByActor(k, name) else Denied(k)
    case SysDevice(op) => (k, Code(if op == 0 || HasCap(Me(k), op, 0) then 0 else -1))
  }

  function Step(k: Kernel, e: Event): (r: (Kernel, Outcome))
    requires Enabled(k, e)
    ensures WF(r.0)
  {
    if IsBoot(e) then BootStep(k, e)
    else if IsStoreCall(e) then StoreStep(k, e)
    else ActorStep(k, e)
  }

  // ---- runs -------------------------------------------------------------------------------

  /** ks[0] is the state scheduler_init, memory_init and storage_init leave; every later state is one step on. */
  /** What the two spawning calls come to. */
  lemma SpawnCallIs(k: Kernel, e: Event)
    requires Enabled(k, e) && e.SysSpawn?
    ensures Step(k, e) == Coded(SpawnChild(k, e.entry))
  {
  }

  lemma LoadCallIs(k: Kernel, e: Event)
    requires Enabled(k, e) && e.SysSpawnProgram?
    ensures Step(k, e) == if HasCap(Me(k), CAP_READ_OBJECT, e.id) then Coded(LoadProgram(k, e.id)) else (k, Code(-1))
  {
  }

  ghost predicate IsRun(ks: seq<Kernel>, es: seq<Event>) {
    && |ks| == |es| + 1
    && (forall i {:trigger es[i]} :: 0 <= i < |es| ==> Enabled(ks[i], es[i]) && ks[i + 1] == Step(ks[i], es[i]).0)
  }

  predicate FreshSlot(a: Actor) {
    && a.state.Dead? && a.stackPage == 0 && a.head == 0 && a.count == 0 && |a.mailbox| > 0 && !a.inReceive
    && forall c :: c in a.caps ==> c == NO_CAP
  }

  /** scheduler_init. */
  predicate Initial(k: Kernel) {
    && WF(k) && k.current == -1 && !k.halted
    && forall i :: 0 <= i < |k.actors| ==> FreshSlot(k.actors[i])
  }
}
