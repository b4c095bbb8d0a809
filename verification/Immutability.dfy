/**
  Authority over stored objects: an object that no living actor may write or
  delete keeps its bytes in every continuation, and, if nobody may promote, its
  trust as well. The proof joins the capability tables to the object store.
 */
module Immutability {
  import opened ActorTable
  import opened Kernel
  import Authority
  import Mailboxes
  import Runs
  import Scheduling
  import Directory
  import StoreSpec
  import StoreRefinement

  ghost predicate NobodyHoldsCap(k: Kernel, c: Capability) {
    forall s :: !Authority.Holds(k, s, c)
  }

  // ---- which steps touch the store at all ---------------------------------------------

  predicate MayTouchStore(e: Event) {
    e.BootCreate? || e.BootWrite? || e.SysCreate? || IsStoreCall(e)
  }

  lemma SpawnKeepsStore(k: Kernel, entry: nat)
    requires WF(k)
    ensures Spawn(k, entry).0.store == k.store
  {
  }

  lemma LoadKeepsStore(k: Kernel, id: int)
    requires Started(k)
    ensures LoadProgram(k, id).0.store == k.store
  {
    var bytes := StoreSpec.Read(k.store, id, Directory.OBJECT_MAX_BYTES);
    if bytes.Some? && ParseProgram(bytes.value).Some? {
      var image := ParseProgram(bytes.value).value;
      var pages := PagesFor(image.codeSize);
      var (mem, phys) := PageFrames.DmaPages(k.mem, pages);
      SpawnKeepsStore(k.(mem := mem), Paging.PROGRAM_VBASE + image.entryOffset);
    }
  }

  lemma StoreUntouched(k: Kernel, e: Event)
    requires Enabled(k, e) && !MayTouchStore(e)
    ensures Step(k, e).0.store == k.store
  {
    if e.SysSpawnProgram? {
      LoadKeepsStore(k, e.id);
    } else if e.SysSpawn? || e.BootSpawn? {
      SpawnKeepsStore(k, e.entry);
    }
  }

  // ---- one step and one object ----------------------------------------------------------

  /** Object id survives with the same bytes, and with the same trust unless the caller may promote. */
  ghost predicate ObjectKept(s: StoreSpec.Store, s': StoreSpec.Store, id: int, mayPromote: bool) {
    && StoreRefinement.StoreInv(s) && StoreRefinement.StoreInv(s')
    && id in StoreRefinement.ViewOf(s) && id in StoreRefinement.ViewOf(s')
    && StoreRefinement.ViewOf(s')[id].bytes == StoreRefinement.ViewOf(s)[id].bytes
    && (!mayPromote ==> StoreRefinement.ViewOf(s')[id].trust == StoreRefinement.ViewOf(s)[id].trust)
  }

  predicate Promoter(k: Kernel)
    requires Started(k)
  {
    HasCap(Me(k), CAP_PROMOTE_OBJECT, 0)
  }

  /** What core/storage.c does when asked for this event. */
  function Asked(s: StoreSpec.Store, e: Event): StoreSpec.Store
    requires StoreSpec.StoreWF(s)
  {
    match e
    case BootCreate(name) => StoreSpec.CreateObject(s, name).0
    case BootWrite(id, buf) => StoreSpec.Write(s, id, buf).0
    case SysCreate(name) => StoreSpec.CreateNamed(s, name).0
    case SysWriteObject(id, buf) => StoreSpec.Write(s, id, buf).0
    case SysPromote(id) => StoreSpec.Promote(s, id).0
    case SysReject(id) => StoreSpec.Reject(s, id).0
    case SysRename(id, name) => StoreSpec.Rename(s, id, name).0
    case SysDelete(id) => StoreSpec.Delete(s, id).0
    case _ => s
  }

  /** May the caller ask for it? */
  predicate Permits(k: Kernel, e: Event)
    requires Enabled(k, e)
  {
    match e
    case BootCreate(_) => true
    case BootWrite(_, _) => true
    case SysCreate(_) => HasCap(Me(k), CAP_CREATE_OBJECT, 0)
    case SysWriteObject(id, _) => HasCap(Me(k), CAP_WRITE_OBJECT, id)
    case SysPromote(_) => Promoter(k)
    case SysReject(_) => Promoter(k)
    case SysRename(id, _) => HasCap(Me(k), CAP_RENAME_OBJECT, id)
    case SysDelete(id) => HasCap(Me(k), CAP_DELETE_OBJECT, id)
    case _ => false
  }

  /** The store after a step. */
  function StoreAfter(k: Kernel, e: Event): StoreSpec.Store
    requires Enabled(k, e)
  {
    if Permits(k, e) then Asked(k.store, e) else k.store
  }

  lemma StepStore(k: Kernel, e: Event)
    requires Enabled(k, e)
    ensures Step(k, e).0.store == StoreAfter(k, e)
  {
    if !MayTouchStore(e) {
      StoreUntouched(k, e);
    } else if IsBoot(e) {
      BootStore(k, e);
    } else if e.SysCreate? {
      CreateStore(k, e);
    } else {
      CallStore(k, e);
    }
  }

  lemma BootStore(k: Kernel, e: Event)
    requires Enabled(k, e) && (e.BootCreate? || e.BootWrite?)
    ensures Step(k, e).0.store == StoreAfter(k, e)
  {
  }

  lemma CreateStore(k: Kernel, e: Event)
    requires Enabled(k, e) && e.SysCreate?
    ensures Step(k, e).0.store == StoreAfter(k, e)
  {
  }

  lemma CallStore(k: Kernel, e: Event)
    requires Enabled(k, e) && IsStoreCall(e)
    ensures Step(k, e).0.store == StoreAfter(k, e)
  {
    assert Step(k, e) == StoreStep(k, e);
  }

  predicate Harmless(k: Kernel, id: int)
    requires Started(k)
  {
    !HasCap(Me(k), CAP_WRITE_OBJECT, id) && !HasCap(Me(k), CAP_DELETE_OBJECT, id)
  }

  lemma AskedCreate(s: StoreSpec.Store, e: Event)
    requires StoreSpec.StoreWF(s) && e.SysCreate?
    ensures Asked(s, e) == StoreSpec.CreateNamed(s, e.name).0
  {
  }

  lemma CreateKeeps(s: StoreSpec.Store, e: Event, id: int, s': StoreSpec.Store)
    requires StoreRefinement.StoreInv(s) && id in StoreRefinement.ViewOf(s) && e.SysCreate? && s' == StoreSpec.CreateNamed(s, e.name).0
    ensures ObjectKept(s, s', id, false)
  {
    StoreRefinement.CreateRefines(s, e.name);
    assert StoreSpec.AllocObject(s, e.name).1 != id;
  }

  lemma AskedWrite(s: StoreSpec.Store, e: Event)
    requires StoreSpec.StoreWF(s) && e.SysWriteObject?
    ensures Asked(s, e) == StoreSpec.Write(s, e.id, e.buf).0
  {
  }

  lemma WriteKeeps(s: StoreSpec.Store, e: Event, id: int, s': StoreSpec.Store)
    requires StoreRefinement.StoreInv(s) && id in StoreRefinement.ViewOf(s) && e.SysWriteObject? && e.id != id && s' == StoreSpec.Write(s, e.id, e.buf).0
    ensures ObjectKept(s, s', id, false)
  {
    StoreRefinement.WriteRefines(s, e.id, e.buf);
  }

  lemma AskedPromote(s: StoreSpec.Store, e: Event)
    requires StoreSpec.StoreWF(s) && e.SysPromote?
    ensures Asked(s, e) == StoreSpec.Promote(s, e.id).0
  {
  }

  lemma PromoteKeeps(s: StoreSpec.Store, e: Event, id: int, s': StoreSpec.Store)
    requires StoreRefinement.StoreInv(s) && id in StoreRefinement.ViewOf(s) && e.SysPromote? && s' == StoreSpec.Promote(s, e.id).0
    ensures ObjectKept(s, s', id, true)
  {
    StoreRefinement.PromoteRefines(s, e.id);
  }

  lemma AskedReject(s: StoreSpec.Store, e: Event)
    requires StoreSpec.StoreWF(s) && e.SysReject?
    ensures Asked(s, e) == StoreSpec.Reject(s, e.id).0
  {
  }

  lemma RejectKeeps(s: StoreSpec.Store, e: Event, id: int, s': StoreSpec.Store)
    requires StoreRefinement.StoreInv(s) && id in StoreRefinement.ViewOf(s) && e.SysReject? && s' == StoreSpec.Reject(s, e.id).0
    ensures ObjectKept(s, s', id, true)
  {
    StoreRefinement.RejectRefines(s, e.id);
  }

  lemma AskedRename(s: StoreSpec.Store, e: Event)
    requires StoreSpec.StoreWF(s) && e.SysRename?
    ensures Asked(s, e) == StoreSpec.Rename(s, e.id, e.name).0
  {
  }

  lemma RenameKeeps(s: StoreSpec.Store, e: Event, id: int, s': StoreSpec.Store)
    requires StoreRefinement.StoreInv(s) && id in StoreRefinement.ViewOf(s) && e.SysRename? && s' == StoreSpec.Rename(s, e.id, e.name).0
    ensures ObjectKept(s, s', id, false)
  {
    StoreRefinement.RenameRefines(s, e.id, e.name);
  }

  lemma AskedDelete(s: StoreSpec.Store, e: Event)
    requires StoreSpec.StoreWF(s) && e.SysDelete?
    ensures Asked(s, e) == StoreSpec.Delete(s, e.id).0
  {
  }

  lemma DeleteKeeps(s: StoreSpec.Store, e: Event, id: int, s': StoreSpec.Store)
    requires StoreRefinement.StoreInv(s) && id in StoreRefinement.ViewOf(s) && e.SysDelete? && e.id != id && s' == StoreSpec.Delete(s, e.id).0
    ensures ObjectKept(s, s', id, false)
  {
    StoreRefinement.DeleteRefines(s, e.id);
  }

  /** Whatever the store is asked for, an object survives that is neither written nor deleted. */
  lemma AskedKeeps(s: StoreSpec.Store, e: Event, id: int, s': StoreSpec.Store)
    requires StoreRefinement.StoreInv(s) && id in StoreRefinement.ViewOf(s) && !IsBoot(e) && s' == Asked(s, e)
    requires e.SysWriteObject? || e.SysDelete? ==> e.id != id
    ensures ObjectKept(s, s', id, e.SysPromote? || e.SysReject?)
  {
    if e.SysCreate? {
      AskedCreate(s, e);
      CreateKeeps(s, e, id, s');
    } else if e.SysWriteObject? {
      AskedWrite(s, e);
      WriteKeeps(s, e, id, s');
    } else if e.SysPromote? {
      AskedPromote(s, e);
      PromoteKeeps(s, e, id, s');
    } else if e.SysReject? {
      AskedReject(s, e);
      RejectKeeps(s, e, id, s');
    } else if e.SysRename? {
      AskedRename(s, e);
      RenameKeeps(s, e, id, s');
    } else if e.SysDelete? {
      AskedDelete(s, e);
      DeleteKeeps(s, e, id, s');
    } else {
      assert s' == s;
    }
  }

  lemma StepKeepsObject(k: Kernel, e: Event, id: int)
    requires Enabled(k, e) && 0 <= k.current && StoreRefinement.StoreInv(k.store) && id in StoreRefinement.ViewOf(k.store)
    requires Harmless(k, id)
    ensures ObjectKept(k.store, StoreAfter(k, e), id, Promoter(k))
  {
    if Permits(k, e) {
      AskedKeeps(k.store, e, id, StoreAfter(k, e));
    }
  }

  lemma CreateStoreInv(s: StoreSpec.Store, name: Directory.CString, s': StoreSpec.Store)
    requires StoreRefinement.StoreInv(s) && s' == StoreSpec.CreateNamed(s, name).0
    ensures StoreRefinement.StoreInv(s')
  {
    StoreRefinement.CreateRefines(s, name);
  }

  lemma FindOrCreateStoreInv(s: StoreSpec.Store, name: Directory.CString, s': StoreSpec.Store)
    requires StoreRefinement.StoreInv(s) && s' == StoreSpec.CreateObject(s, name).0
    ensures StoreRefinement.StoreInv(s')
  {
    StoreRefinement.CreateRefines(s, name);
  }

  lemma AskedAtBoot(s: StoreSpec.Store, e: Event)
    requires StoreSpec.StoreWF(s) && (e.BootCreate? || e.BootWrite?)
    ensures Asked(s, e) == if e.BootCreate? then StoreSpec.CreateObject(s, e.name).0 else StoreSpec.Write(s, e.id, e.buf).0
  {
  }

  lemma WriteStoreInv(s: StoreSpec.Store, id: int, buf: seq<Words.byte>, s': StoreSpec.Store)
    requires StoreRefinement.StoreInv(s) && s' == StoreSpec.Write(s, id, buf).0
    ensures StoreRefinement.StoreInv(s')
  {
    StoreRefinement.WriteRefines(s, id, buf);
  }

  lemma PromoteStoreInv(s: StoreSpec.Store, id: int, s': StoreSpec.Store)
    requires StoreRefinement.StoreInv(s) && s' == StoreSpec.Promote(s, id).0
    ensures StoreRefinement.StoreInv(s')
  {
    StoreRefinement.PromoteRefines(s, id);
  }

  lemma RejectStoreInv(s: StoreSpec.Store, id: int, s': StoreSpec.Store)
    requires StoreRefinement.StoreInv(s) && s' == StoreSpec.Reject(s, id).0
    ensures StoreRefinement.StoreInv(s')
  {
    StoreRefinement.RejectRefines(s, id);
  }

  lemma RenameStoreInv(s: StoreSpec.Store, id: int, name: Directory.CString, s': StoreSpec.Store)
    requires StoreRefinement.StoreInv(s) && s' == StoreSpec.Rename(s, id, name).0
    ensures StoreRefinement.StoreInv(s')
  {
    StoreRefinement.RenameRefines(s, id, name);
  }

  lemma DeleteStoreInv(s: StoreSpec.Store, id: int, s': StoreSpec.Store)
    requires StoreRefinement.StoreInv(s) && s' == StoreSpec.Delete(s, id).0
    ensures StoreRefinement.StoreInv(s')
  {
    StoreRefinement.DeleteRefines(s, id);
  }

  lemma AskedKeepsInv(s: StoreSpec.Store, e: Event, s': StoreSpec.Store)
    requires StoreRefinement.StoreInv(s) && s' == Asked(s, e)
    ensures StoreRefinement.StoreInv(s')
  {
    if e.SysCreate? {
      AskedCreate(s, e);
      CreateStoreInv(s, e.name, s');
    } else if e.SysWriteObject? {
      AskedWrite(s, e);
      WriteStoreInv(s, e.id, e.buf, s');
    } else if e.SysPromote? {
      AskedPromote(s, e);
      PromoteStoreInv(s, e.id, s');
    } else if e.SysReject? {
      AskedReject(s, e);
      RejectStoreInv(s, e.id, s');
    } else if e.SysRename? {
      AskedRename(s, e);
      RenameStoreInv(s, e.id, e.name, s');
    } else if e.SysDelete? {
      AskedDelete(s, e);
      DeleteStoreInv(s, e.id, s');
    } else if e.BootCreate? {
      AskedAtBoot(s, e);
      FindOrCreateStoreInv(s, e.name, s');
    } else if e.BootWrite? {
      AskedAtBoot(s, e);
      WriteStoreInv(s, e.id, e.buf, s');
    } else {
      assert s' == s;
    }
  }

  lemma StepKeepsStoreInv(k: Kernel, e: Event)
    requires Enabled(k, e) && StoreRefinement.StoreInv(k.store)
    ensures StoreRefinement.StoreInv(StoreAfter(k, e))
  {
    if Permits(k, e) {
      AskedKeepsInv(k.store, e, StoreAfter(k, e));
    }
  }

  lemma SyncedStep(ks: seq<Kernel>, es: seq<Event>, i: nat)
    requires IsRun(ks, es) && i < |es| && StoreRefinement.StoreInv(ks[i].store)
    ensures StoreRefinement.StoreInv(ks[i + 1].store)
  {
    StepStore(ks[i], es[i]);
    StepKeepsStoreInv(ks[i], es[i]);
  }

  /** The directory on disk matches the table in memory in every state of every run. */
  lemma {:induction false} DirectoryAlwaysSynced(ks: seq<Kernel>, es: seq<Event>, n: nat)
    requires IsRun(ks, es) && StoreRefinement.StoreInv(ks[0].store) && n < |ks|
    ensures StoreRefinement.StoreInv(ks[n].store)
  {
    if n > 0 {
      DirectoryAlwaysSynced(ks, es, n - 1);
      SyncedStep(ks, es, n - 1);
    }
  }

  // ---- authority over a live object cannot reappear ---------------------------------------

  /** Rights over object id that its present absence of holders protects. */
  predicate ProtectedRight(c: Capability, id: int) {
    || c == Capability(CAP_WRITE_OBJECT, id)
    || c == Capability(CAP_DELETE_OBJECT, id)
    || c == Capability(CAP_PROMOTE_OBJECT, 0)
  }

  lemma StillNobodyHolds(k: Kernel, e: Event, id: int, c: Capability)
    requires Enabled(k, e) && 0 <= k.current && Mailboxes.CurrentLives(k)
    requires StoreRefinement.StoreInv(k.store) && id in StoreRefinement.ViewOf(k.store)
    requires ProtectedRight(c, id) && NobodyHoldsCap(k, c)
    ensures NobodyHoldsCap(Step(k, e).0, c)
  {
    Authority.StepOnlyNew(k, e);
    var (k', r) := Step(k, e);
    forall s
      ensures !Authority.Holds(k', s, c)
    {
      if (s, c) in Authority.Granted(k, e, r) {
        Authority.GrantedCases(k, e, r, s, c);
        assert !Authority.Holds(k, k.current, c);
        if e.SysCreate? {
          Authority.CreatedIsFresh(k, e);
        }
      }
    }
  }

  /** What the theorem carries along: the object, and nobody able to change it. */
  ghost predicate Frozen(k: Kernel, id: int) {
    && StoreRefinement.StoreInv(k.store) && id in StoreRefinement.ViewOf(k.store)
    && NobodyHoldsCap(k, Capability(CAP_WRITE_OBJECT, id)) && NobodyHoldsCap(k, Capability(CAP_DELETE_OBJECT, id))
  }

  lemma FrozenStep(k: Kernel, e: Event, id: int)
    requires Enabled(k, e) && 0 <= k.current && Mailboxes.CurrentLives(k) && Frozen(k, id)
    ensures Frozen(Step(k, e).0, id) && ObjectKept(k.store, Step(k, e).0.store, id, Promoter(k))
  {
    assert !Authority.Holds(k, k.current, Capability(CAP_WRITE_OBJECT, id));
    assert !Authority.Holds(k, k.current, Capability(CAP_DELETE_OBJECT, id));
    StepStore(k, e);
    StepKeepsObject(k, e, id);
    StillNobodyHolds(k, e, id, Capability(CAP_WRITE_OBJECT, id));
    StillNobodyHolds(k, e, id, Capability(CAP_DELETE_OBJECT, id));
  }

  ghost predicate PromoteGone(k: Kernel) {
    NobodyHoldsCap(k, Capability(CAP_PROMOTE_OBJECT, 0))
  }

  lemma FrozenRunStep(ks: seq<Kernel>, es: seq<Event>, m: nat, i: nat, id: int)
    requires IsRun(ks, es) && Initial(ks[0]) && m <= i < |es| && 0 <= ks[m].current && Frozen(ks[i], id)
    ensures Frozen(ks[i + 1], id) && ObjectKept(ks[i].store, ks[i + 1].store, id, !PromoteGone(ks[i]))
    ensures PromoteGone(ks[i]) ==> PromoteGone(ks[i + 1])
  {
    Scheduling.InitialSched(ks[0]);
    Scheduling.RunStaysStarted(ks, es, m, i);
    Mailboxes.CurrentAlwaysLives(ks, es, i);
    FrozenStep(ks[i], es[i], id);
    if PromoteGone(ks[i]) {
      StillNobodyHolds(ks[i], es[i], id, Capability(CAP_PROMOTE_OBJECT, 0));
      assert !Authority.Holds(ks[i], ks[i].current, Capability(CAP_PROMOTE_OBJECT, 0));
    }
  }

  /** Frozen, with these bytes. */
  ghost predicate Holding(k: Kernel, id: int, bytes: seq<Words.byte>) {
    Frozen(k, id) && StoreRefinement.ViewOf(k.store)[id].bytes == bytes
  }

  /**
    Immutability by authority: from a state in which no living actor holds
    CAP_WRITE_OBJECT(id) or CAP_DELETE_OBJECT(id), object id stays live with the
    same bytes for ever.
   */
  lemma ContentsImmutable(ks: seq<Kernel>, es: seq<Event>, m: nat, n: nat, id: int)
    requires IsRun(ks, es) && Initial(ks[0]) && m <= n < |ks| && 0 <= ks[m].current && Frozen(ks[m], id)
    ensures Holding(ks[n], id, StoreRefinement.ViewOf(ks[m].store)[id].bytes)
  {
    var bytes := StoreRefinement.ViewOf(ks[m].store)[id].bytes;
    var inv := k => Holding(k, id, bytes);
    forall i | m <= i < |ks| - 1 && inv(ks[i])
      ensures inv(ks[i + 1])
    {
      FrozenRunStep(ks, es, m, i, id);
    }
    Runs.Throughout(inv, ks, m, n);
  }

  ghost predicate Settled(k: Kernel, id: int, trust: nat) {
    Frozen(k, id) && PromoteGone(k) && StoreRefinement.ViewOf(k.store)[id].trust == trust
  }

  /** If besides nobody holds CAP_PROMOTE_OBJECT(0), its trust never changes either. */
  lemma TrustImmutable(ks: seq<Kernel>, es: seq<Event>, m: nat, n: nat, id: int)
    requires IsRun(ks, es) && Initial(ks[0]) && m <= n < |ks| && 0 <= ks[m].current && Frozen(ks[m], id)
    requires PromoteGone(ks[m])
    ensures Settled(ks[n], id, StoreRefinement.ViewOf(ks[m].store)[id].trust)
  {
    var trust := StoreRefinement.ViewOf(ks[m].store)[id].trust;
    var inv := k => Settled(k, id, trust);
    forall i | m <= i < |ks| - 1 && inv(ks[i])
      ensures inv(ks[i + 1])
    {
      FrozenRunStep(ks, es, m, i, id);
    }
    Runs.Throughout(inv, ks, m, n);
  }

  /** A rejected object, or one that is gone, cannot be loaded as a program either; asking changes nothing. */
  lemma RejectedIsNotLoaded(k: Kernel, id: int)
    requires Started(k) && StoreRefinement.StoreInv(k.store)
    requires id !in StoreRefinement.ViewOf(k.store) || StoreRefinement.ViewOf(k.store)[id].trust == Directory.REJECTED
    ensures LoadProgram(k, id) == (k, -1)
  {
    StoreRefinement.ReadRefines(k.store, id, Directory.OBJECT_MAX_BYTES);
  }
}
