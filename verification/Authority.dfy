/**
  Capabilities cannot be forged: over every run, what an actor may do was given
  to it at boot, by spawning, by creating an object, or by somebody who held it.
 */
module Authority {
  import opened ActorTable
  import opened Kernel
  import Mailboxes
  import Scheduling
  import StoreSpec

  /** A living occupant of slot s holds capability c. */
  predicate Holds(k: Kernel, s: int, c: Capability) {
    SlotOk(k, s) && !k.actors[s].state.Dead? && c in k.actors[s].caps
  }

  type Grants = set<(int, Capability)>

  function ByAdoption(spawner: int, child: int): Grants {
    {(spawner, Capability(CAP_SEND, child)), (spawner, Capability(CAP_TERMINATE, child)),
     (child, Capability(CAP_SEND, spawner))}
  }

  function ByCreation(creator: int, id: int): Grants {
    {(creator, Capability(CAP_READ_OBJECT, id)), (creator, Capability(CAP_WRITE_OBJECT, id)),
     (creator, Capability(CAP_RENAME_OBJECT, id)), (creator, Capability(CAP_DELETE_OBJECT, id))}
  }

  /** The capabilities a step with outcome r may hand out, to whom. */
  function Granted(k: Kernel, e: Event, r: Outcome): Grants
    requires Enabled(k, e)
  {
    var code := if r.Code? then r.code else -1;
    match e
    case BootGrant(dest, op, target) => {(dest, Capability(op, target))}
    case SysGrant(dest, op, target) => if HasCap(Me(k), op, target) then {(dest, Capability(op, target))} else {}
    case SysSpawn(_) => if code >= 0 then ByAdoption(k.current, code) else {}
    case SysSpawnProgram(_) => if code >= 0 then ByAdoption(k.current, code) else {}
    case SysCreate(_) => if code >= 0 then ByCreation(k.current, code) else {}
    case _ => {}
  }

  /** Whatever is held after is held before, or is among the new grants. */
  ghost predicate OnlyNew(k: Kernel, k': Kernel, given: Grants) {
    && |k'.actors| == |k.actors|
    && forall s, c: Capability :: c.op != 0 && Holds(k', s, c) ==> Holds(k, s, c) || (s, c) in given
  }

  lemma OnlyNewTrans(k: Kernel, k1: Kernel, k2: Kernel, a: Grants, b: Grants)
    requires OnlyNew(k, k1, a) && OnlyNew(k1, k2, b)
    ensures OnlyNew(k, k2, a + b)
  {
  }

  lemma GrantOnlyNew(k: Kernel, dest: int, op: int, target: int)
    requires WF(k)
    ensures OnlyNew(k, GrantTo(k, dest, op, target).0, {(dest, Capability(op, target))})
  {
    if SlotOk(k, dest) {
      AddCapEffect(k.actors[dest], op, target);
      var k' := GrantTo(k, dest, op, target).0;
      forall s, c: Capability | c.op != 0 && Holds(k', s, c)
        ensures Holds(k, s, c) || (s, c) == (dest, Capability(op, target))
      {
        if s == dest {
          assert HasCap(k'.actors[dest], c.op, c.target);
        }
      }
    }
  }

  /** The capability tables stay as they are, and no dead slot comes alive. */
  ghost predicate CapsKept(k: Kernel, k': Kernel) {
    && |k'.actors| == |k.actors|
    && forall s :: 0 <= s < |k.actors| ==>
         k'.actors[s].caps == k.actors[s].caps && (k.actors[s].state.Dead? ==> k'.actors[s].state.Dead?)
  }

  lemma CapsKeptOnlyNew(k: Kernel, k': Kernel)
    requires CapsKept(k, k')
    ensures OnlyNew(k, k', {})
  {
  }

  lemma AdoptOnlyNew(k: Kernel, spawner: int, child: int)
    requires WF(k) && SlotOk(k, spawner) && SlotOk(k, child)
    ensures OnlyNew(k, Adopt(k, spawner, child), ByAdoption(spawner, child))
  {
    var k' := Adopt(k, spawner, child);
    var a := k.actors[spawner];
    var cs := [Capability(CAP_SEND, child), Capability(CAP_TERMINATE, child)];
    var k1 := SetActor(k, spawner, AddCaps(a.(spawnCount := a.spawnCount + 1), cs));
    forall s, c: Capability | c.op != 0 && Holds(k', s, c)
      ensures Holds(k, s, c) || (s, c) in ByAdoption(spawner, child)
    {
      if s == child && c !in k1.actors[child].caps {
        AddCapEffect(k1.actors[child], CAP_SEND, spawner);
        assert HasCap(k'.actors[child], c.op, c.target);
      } else if s == spawner {
        AddCapsEffect(a.(spawnCount := a.spawnCount + 1), cs, c);
      }
    }
  }

  lemma CreateOnlyNew(k: Kernel, name: Directory.CString)
    requires Started(k)
    ensures var (k', r) := CreateByActor(k, name);
            && r.Code? && (r.code >= 0 ==> !StoreSpec.Live(k.store, r.code))
            && OnlyNew(k, k', if r.code >= 0 then ByCreation(k.current, r.code) else {})
  {
    var (k', r) := CreateByActor(k, name);
    if r.code >= 0 {
      forall s, c: Capability | c.op != 0 && Holds(k', s, c)
        ensures Holds(k, s, c) || (s, c) in ByCreation(k.current, r.code)
      {
        if s == k.current {
          AddCapsEffect(Me(k), OwnerCaps(r.code), c);
        }
      }
    }
  }

  /** A delegation fails exactly if there is no such slot, the caller lacks the right, or the table is full. */
  lemma DelegationRefusedIff(k: Kernel, dest: int, op: int, target: int)
    requires Started(k)
    ensures Delegate(k, dest, op, target).1 != 0 <==>
            !SlotOk(k, dest) || !HasCap(Me(k), op, target) || TableFull(k.actors[dest])
  {
    if SlotOk(k, dest) {
      var caps := k.actors[dest].caps;
      var i := FreeCap(caps);
      if i == |caps| {
        assert TableFull(k.actors[dest]);
      } else {
        assert caps[i] in caps && caps[i].op == 0;
      }
    }
  }

  /** A fresh occupant starts with nothing. */
  lemma SpawnOnlyNew(k: Kernel, entry: nat)
    requires WF(k)
    ensures OnlyNew(k, Spawn(k, entry).0, {})
    ensures forall c: Capability :: c.op != 0 ==> !Holds(Spawn(k, entry).0, Spawn(k, entry).1, c)
  {
    var (k', slot) := Spawn(k, entry);
    if slot >= 0 {
      assert forall c :: c in k'.actors[slot].caps ==> c == NO_CAP;
    }
  }

  lemma SpawnProgramOnlyNew(k: Kernel, phys: nat, size: nat, entryOffset: nat)
    requires WF(k)
    ensures OnlyNew(k, SpawnProgram(k, phys, size, entryOffset).0, {})
  {
    var entry := Paging.PROGRAM_VBASE + entryOffset;
    SpawnOnlyNew(k, entry);
    var (k1, slot) := Spawn(k, entry);
    var k2 := SpawnProgram(k, phys, size, entryOffset).0;
    assert OnlyNew(k1, k2, {});
    OnlyNewTrans(k, k1, k2, {}, {});
  }

  lemma SpawnChildOnlyNew(k: Kernel, entry: nat)
    requires Started(k)
    ensures var (k', child) := SpawnChild(k, entry);
            OnlyNew(k, k', if child >= 0 then ByAdoption(k.current, child) else {})
  {
    if MaySpawn(k) {
      SpawnOnlyNew(k, entry);
      var (k1, child) := Spawn(k, entry);
      if child >= 0 {
        AdoptOnlyNew(k1, k.current, child);
        OnlyNewTrans(k, k1, Adopt(k1, k.current, child), {}, ByAdoption(k.current, child));
        assert {} + ByAdoption(k.current, child) == ByAdoption(k.current, child);
      }
    }
  }

  lemma SpawnProgramChildOnlyNew(k: Kernel, phys: nat, size: nat, entryOffset: nat)
    requires Started(k)
    ensures var (k', child) := SpawnProgramChild(k, phys, size, entryOffset);
            OnlyNew(k, k', if child >= 0 then ByAdoption(k.current, child) else {})
  {
    if MaySpawn(k) {
      SpawnProgramOnlyNew(k, phys, size, entryOffset);
      var (k1, child) := SpawnProgram(k, phys, size, entryOffset);
      if child >= 0 {
        AdoptOnlyNew(k1, k.current, child);
        OnlyNewTrans(k, k1, Adopt(k1, k.current, child), {}, ByAdoption(k.current, child));
        assert {} + ByAdoption(k.current, child) == ByAdoption(k.current, child);
      }
    }
  }

  lemma LoadProgramOnlyNew(k: Kernel, id: int)
    requires Started(k)
    ensures var (k', child) := LoadProgram(k, id);
            OnlyNew(k, k', if child >= 0 then ByAdoption(k.current, child) else {})
  {
    var bytes := StoreSpec.Read(k.store, id, Directory.OBJECT_MAX_BYTES);
    if bytes.Some? && ParseProgram(bytes.value).Some? {
      var image := ParseProgram(bytes.value).value;
      var pages := PagesFor(image.codeSize);
      var (mem, phys) := PageFrames.DmaPages(k.mem, pages);
      if phys.Some? {
        var k0 := k.(mem := mem);
        assert forall s, c :: Holds(k0, s, c) ==> Holds(k, s, c);
        SpawnProgramChildOnlyNew(k0, phys.value, pages * PageFrames.PAGE_SIZE, image.entryOffset);
      }
    }
  }

  lemma ScheduleCaps(k: Kernel)
    requires WF(k) && !k.halted
    ensures CapsKept(k, ScheduleNext(k))
  {
    ReapRows(k, 0);
  }

  lemma DecisionCaps(k: Kernel, e: Event)
    requires Enabled(k, e) && Mailboxes.CurrentLives(k) && Scheduling.Decides(k, e)
    ensures CapsKept(k, Step(k, e).0)
  {
    Scheduling.DecisionIsSchedule(k, e);
    DecisionKeepsCaps(k, e);
    ScheduleCaps(Scheduling.AtDecision(k, e));
  }

  lemma DecisionKeepsCaps(k: Kernel, e: Event)
    requires Enabled(k, e) && Mailboxes.CurrentLives(k) && Scheduling.Decides(k, e)
    ensures CapsKept(k, Scheduling.AtDecision(k, e))
  {
  }

  lemma MessageCaps(k: Kernel, e: Event)
    requires Enabled(k, e) && Mailboxes.CurrentLives(k) && !Scheduling.Decides(k, e) && (e.SysSend? || e.SysReceive? || e.Resume?)
    ensures CapsKept(k, Step(k, e).0)
  {
  }

  lemma RowCaps(k: Kernel, e: Event)
    requires Enabled(k, e) && (e.BootQuota? || e.BootWindow? || e.SysTerminate?)
    ensures CapsKept(k, Step(k, e).0)
  {
  }

  lemma QuietCaps(k: Kernel, e: Event)
    requires Enabled(k, e) && Mailboxes.CurrentLives(k) && !Scheduling.Decides(k, e)
    requires e.BootQuota? || e.BootWindow? || e.SysSend? || e.SysTerminate? || e.SysReceive? || e.Resume?
    ensures CapsKept(k, Step(k, e).0)
  {
    if e.SysSend? || e.SysReceive? || e.Resume? {
      MessageCaps(k, e);
    } else {
      RowCaps(k, e);
    }
  }

  /** One step hands out exactly the capabilities it is entitled to. */
  lemma StepOnlyNew(k: Kernel, e: Event)
    requires Enabled(k, e) && Mailboxes.CurrentLives(k)
    ensures OnlyNew(k, Step(k, e).0, Granted(k, e, Step(k, e).1))
  {
    var k' := Step(k, e).0;
    if e.SysSpawnProgram? {
      LoadProgramOnlyNew(k, e.id);
    } else if e.SysSpawn? {
      SpawnChildOnlyNew(k, e.entry);
    } else if e.SysCreate? {
      CreateOnlyNew(k, e.name);
    } else if e.BootSpawn? {
      SpawnOnlyNew(k, e.entry);
    } else if e.BootGrant? || e.SysGrant? {
      GrantOnlyNew(k, e.dest, e.op, e.target);
    } else {
      if Scheduling.Decides(k, e) {
        DecisionCaps(k, e);
      } else if e.BootCreate? || e.BootWrite? || e.SysDevice? || IsStoreCall(e) {
        Mailboxes.TableKept(k, e);
      } else {
        QuietCaps(k, e);
      }
      CapsKeptOnlyNew(k, k');
    }
  }

  // ---- derivations ------------------------------------------------------------------------

  /** Why somebody holds something; t is the step that gave it. */
  datatype Derivation =
    | AtBoot(t: nat)
    | BySpawn(t: nat)
    | ByCreate(t: nat)
    | ByDelegation(t: nat, holder: Derivation)

  /** The slot's occupant has been alive from just after step t until state n. */
  ghost predicate AliveSince(ks: seq<Kernel>, s: int, t: nat, n: nat)
    requires n < |ks|
  {
    forall i :: t < i <= n ==> SlotOk(ks[i], s) && !ks[i].actors[s].state.Dead?
  }

  ghost predicate Derives(ks: seq<Kernel>, es: seq<Event>, n: nat, s: int, c: Capability, d: Derivation)
    requires IsRun(ks, es) && n < |ks|
    decreases d
  {
    && d.t < n && AliveSince(ks, s, d.t, n)
    && match d
       case AtBoot(t) => es[t] == BootGrant(s, c.op, c.target)
       case BySpawn(t) =>
         && (es[t].SysSpawn? || es[t].SysSpawnProgram?) && (c.op == CAP_SEND || c.op == CAP_TERMINATE)
         && (s, c) in Granted(ks[t], es[t], Step(ks[t], es[t]).1)
       case ByCreate(t) =>
         && es[t].SysCreate? && s == ks[t].current && !StoreSpec.Live(ks[t].store, c.target)
         && (c.op == CAP_READ_OBJECT || c.op == CAP_WRITE_OBJECT || c.op == CAP_RENAME_OBJECT || c.op == CAP_DELETE_OBJECT)
       case ByDelegation(t, holder) =>
         && es[t] == SysGrant(s, c.op, c.target)
         && Holds(ks[t], ks[t].current, c) && Derives(ks, es, t, ks[t].current, c, holder)
  }

  lemma DerivesLater(ks: seq<Kernel>, es: seq<Event>, n: nat, s: int, c: Capability, d: Derivation)
    requires IsRun(ks, es) && n + 1 < |ks| && Derives(ks, es, n, s, c, d)
    requires SlotOk(ks[n + 1], s) && !ks[n + 1].actors[s].state.Dead?
    ensures Derives(ks, es, n + 1, s, c, d)
  {
  }

  lemma InitiallyNothing(k: Kernel, s: int, c: Capability)
    requires Initial(k)
    ensures !Holds(k, s, c)
  {
  }

  /** The four ways of coming by a capability. */
  lemma GrantedCases(k: Kernel, e: Event, r: Outcome, s: int, c: Capability)
    requires Enabled(k, e) && (s, c) in Granted(k, e, r)
    ensures || e == BootGrant(s, c.op, c.target)
            || (e == SysGrant(s, c.op, c.target) && c in Me(k).caps)
            || ((e.SysSpawn? || e.SysSpawnProgram?) && (c.op == CAP_SEND || c.op == CAP_TERMINATE))
            || (e.SysCreate? && s == k.current && r.Code? && c.target == r.code >= 0
                && (c.op == CAP_READ_OBJECT || c.op == CAP_WRITE_OBJECT || c.op == CAP_RENAME_OBJECT || c.op == CAP_DELETE_OBJECT))
  {
  }

  lemma CreatedIsFresh(k: Kernel, e: Event)
    requires Enabled(k, e) && e.SysCreate?
    ensures var r := Step(k, e).1; r.Code? && (r.code >= 0 ==> !StoreSpec.Live(k.store, r.code))
  {
    CreateOnlyNew(k, e.name);
  }

  /** A fresh grant that is not a delegation, as a derivation. */
  lemma OriginalGrant(ks: seq<Kernel>, es: seq<Event>, t: nat, s: int, c: Capability) returns (d: Derivation)
    requires IsRun(ks, es) && t < |es| && !es[t].SysGrant?
    requires (s, c) in Granted(ks[t], es[t], Step(ks[t], es[t]).1) && Holds(ks[t + 1], s, c)
    ensures Derives(ks, es, t + 1, s, c, d)
  {
    GrantedCases(ks[t], es[t], Step(ks[t], es[t]).1, s, c);
    if es[t].BootGrant? {
      d := AtBoot(t);
    } else if es[t].SysCreate? {
      CreatedIsFresh(ks[t], es[t]);
      d := ByCreate(t);
    } else {
      d := BySpawn(t);
    }
  }

  /** A delegation just made, on top of the delegator's own derivation. */
  lemma DelegatedGrant(ks: seq<Kernel>, es: seq<Event>, t: nat, s: int, c: Capability, holder: Derivation)
    requires IsRun(ks, es) && t < |es| && es[t] == SysGrant(s, c.op, c.target) && Holds(ks[t + 1], s, c)
    requires Holds(ks[t], ks[t].current, c) && Derives(ks, es, t, ks[t].current, c, holder)
    ensures Derives(ks, es, t + 1, s, c, ByDelegation(t, holder))
  {
  }

  lemma {:induction false} GrantDerives(ks: seq<Kernel>, es: seq<Event>, t: nat, s: int, c: Capability) returns (d: Derivation)
    requires IsRun(ks, es) && Initial(ks[0]) && t < |es| && c.op != 0
    requires (s, c) in Granted(ks[t], es[t], Step(ks[t], es[t]).1) && Holds(ks[t + 1], s, c)
    ensures Derives(ks, es, t + 1, s, c, d)
    decreases t, 1
  {
    if es[t].SysGrant? {
      Mailboxes.CurrentAlwaysLives(ks, es, t);
      var holder := Unforgeable(ks, es, t, ks[t].current, c);
      DelegatedGrant(ks, es, t, s, c, holder);
      d := ByDelegation(t, holder);
    } else {
      d := OriginalGrant(ks, es, t, s, c);
    }
  }

  /**
    No forged authority: whatever a living actor holds derives from a boot
    grant, a spawn or the creation of a fresh object, through delegations each
    made by an actor that held the capability, all within the holder's lifetime.
   */
  lemma {:induction false} Unforgeable(ks: seq<Kernel>, es: seq<Event>, n: nat, s: int, c: Capability) returns (d: Derivation)
    requires IsRun(ks, es) && Initial(ks[0]) && n < |ks| && c.op != 0 && Holds(ks[n], s, c)
    ensures Derives(ks, es, n, s, c, d)
    decreases n, 0
  {
    InitiallyNothing(ks[0], s, c);
    Mailboxes.CurrentAlwaysLives(ks, es, n - 1);
    StepOnlyNew(ks[n - 1], es[n - 1]);
    if Holds(ks[n - 1], s, c) {
      d := Unforgeable(ks, es, n - 1, s, c);
      DerivesLater(ks, es, n - 1, s, c, d);
    } else {
      d := GrantDerives(ks, es, n - 1, s, c);
    }
  }

  // ---- authority that is gone stays gone ----------------------------------------------------

  ghost predicate NobodyHolds(k: Kernel, op: int) {
    forall s, c :: Holds(k, s, c) ==> c.op != op
  }

  /** SPAWN, PROMOTE, NET, LIST_NAMES, CREATE, CONSOLE and every operation no step hands out. */
  predicate NeverHandedOut(op: int) {
    && op != 0 && op != CAP_SEND && op != CAP_TERMINATE
    && op != CAP_READ_OBJECT && op != CAP_WRITE_OBJECT && op != CAP_RENAME_OBJECT && op != CAP_DELETE_OBJECT
  }

  lemma GrantedKinds(k: Kernel, e: Event, r: Outcome, s: int, c: Capability)
    requires Enabled(k, e) && Mailboxes.CurrentLives(k) && 0 <= k.current && (s, c) in Granted(k, e, r)
    ensures NeverHandedOut(c.op) ==> Holds(k, k.current, c)
  {
  }

  lemma StepHandsOutNothing(k: Kernel, e: Event, op: int)
    requires Enabled(k, e) && Mailboxes.CurrentLives(k) && 0 <= k.current && NeverHandedOut(op) && NobodyHolds(k, op)
    ensures NobodyHolds(Step(k, e).0, op)
  {
    StepOnlyNew(k, e);
    var (k', r) := Step(k, e);
    forall s, c | Holds(k', s, c)
      ensures c.op != op
    {
      if (s, c) in Granted(k, e, r) {
        GrantedKinds(k, e, r, s, c);
      }
    }
  }

  lemma LostStep(ks: seq<Kernel>, es: seq<Event>, i: nat, op: int)
    requires IsRun(ks, es) && Initial(ks[0]) && i < |es| && 0 <= ks[i].current
    requires NeverHandedOut(op) && NobodyHolds(ks[i], op)
    ensures NobodyHolds(ks[i + 1], op)
  {
    Mailboxes.CurrentAlwaysLives(ks, es, i);
    StepHandsOutNothing(ks[i], es[i], op);
  }

  /** Once the scheduler runs, a right of this kind that no living actor holds is never held again. */
  lemma {:induction false} LostForGood(ks: seq<Kernel>, es: seq<Event>, m: nat, n: nat, op: int)
    requires IsRun(ks, es) && Initial(ks[0]) && m <= n < |ks| && 0 <= ks[m].current
    requires NeverHandedOut(op) && NobodyHolds(ks[m], op)
    ensures NobodyHolds(ks[n], op)
  {
    if n > m {
      LostForGood(ks, es, m, n - 1, op);
      Scheduling.InitialSched(ks[0]);
      Scheduling.RunStaysStarted(ks, es, m, n - 1);
      LostStep(ks, es, n - 1, op);
    }
  }
}
