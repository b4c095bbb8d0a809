/**
  The dispatch in hal/x86_64/syscall.c, call by call: without its right a call
  does nothing; with it, a storage call answers as a map from ids to objects
  would; and whoever creates an object may use it.
 */
module SystemCalls {
  import opened Options
  import opened Words
  import opened ActorTable
  import opened Kernel
  import Directory
  import StoreProperties
  import StoreRefinement
  import StoreSpec

  // ---- every call needs its right ---------------------------------------------------------------

  /** The capability a call is gated by, if by any. */
  function NeededRight(e: Event): Option<Capability> {
    match e
    case SysSend(dest, _, _) => Some(Capability(CAP_SEND, dest))
    case SysGrant(_, op, target) => Some(Capability(op, target))
    case SysSpawn(_) => Some(Capability(CAP_SPAWN, 0))
    case SysTerminate(target) => Some(Capability(CAP_TERMINATE, target))
    case SysRead(id, _) => Some(Capability(CAP_READ_OBJECT, id))
    case SysWriteObject(id, _) => Some(Capability(CAP_WRITE_OBJECT, id))
    case SysPromote(_) => Some(Capability(CAP_PROMOTE_OBJECT, 0))
    case SysReject(_) => Some(Capability(CAP_PROMOTE_OBJECT, 0))
    case SysSpawnProgram(id) => Some(Capability(CAP_READ_OBJECT, id))
    case SysList(_) => Some(Capability(CAP_LIST_NAMES, 0))
    case SysCreate(_) => Some(Capability(CAP_CREATE_OBJECT, 0))
    case SysRename(id, _) => Some(Capability(CAP_RENAME_OBJECT, id))
    case SysDelete(id) => Some(Capability(CAP_DELETE_OBJECT, id))
    case SysDevice(op) => if op == 0 then None else Some(Capability(op, 0))
    case _ => None
  }

  function Refusal(e: Event): Outcome {
    if e.SysRead? then Bytes(None) else Code(-1)
  }

  predicate Lacks(k: Kernel, e: Event)
    requires Started(k)
  {
    NeededRight(e).Some? && NeededRight(e).value !in k.actors[k.current].caps
  }

  lemma NoRightNoContent(k: Kernel, e: Event)
    requires Started(k) && Lacks(k, e) && (e.SysRead? || e.SysWriteObject? || e.SysPromote? || e.SysReject?)
    ensures StoreStep(k, e) == (k, Refusal(e))
  {
  }

  lemma NoRightNoNaming(k: Kernel, e: Event)
    requires Started(k) && Lacks(k, e) && (e.SysList? || e.SysRename? || e.SysDelete?)
    ensures StoreStep(k, e) == (k, Refusal(e))
  {
  }

  lemma NoRightNoTalk(k: Kernel, e: Event)
    requires Started(k) && Lacks(k, e) && (e.SysSend? || e.SysGrant? || e.SysTerminate?)
    ensures ActorStep(k, e) == (k, Refusal(e))
  {
  }

  lemma NoRightNoMaking(k: Kernel, e: Event)
    requires Started(k) && Lacks(k, e) && (e.SysSpawn? || e.SysSpawnProgram? || e.SysCreate? || e.SysDevice?)
    ensures ActorStep(k, e) == (k, Refusal(e))
  {
  }

  lemma Dispatch(k: Kernel, e: Event)
    requires Enabled(k, e) && 0 <= k.current
    ensures Step(k, e) == if IsStoreCall(e) then StoreStep(k, e) else ActorStep(k, e)
  {
  }

  /** A call without its right is refused and changes nothing at all. */
  lemma NoRightNoEffect(k: Kernel, e: Event)
    requires Enabled(k, e) && 0 <= k.current && NeededRight(e).Some? && NeededRight(e).value !in k.actors[k.current].caps
    ensures Step(k, e) == (k, Refusal(e))
  {
    Dispatch(k, e);
    if e.SysRead? || e.SysWriteObject? || e.SysPromote? || e.SysReject? {
      NoRightNoContent(k, e);
    } else if e.SysList? || e.SysRename? || e.SysDelete? {
      NoRightNoNaming(k, e);
    } else if e.SysSend? || e.SysGrant? || e.SysTerminate? {
      NoRightNoTalk(k, e);
    } else {
      NoRightNoMaking(k, e);
    }
  }

  // ---- grants ----------------------------------------------------------------------------------------

  /** Only slot dest's table has changed, by this one right. */
  ghost predicate GaveRight(k: Kernel, dest: int, c: Capability, k': Kernel) {
    && SlotOk(k, dest) && |k'.actors| == |k.actors| && k' == k.(actors := k.actors[dest := k'.actors[dest]])
    && k'.actors[dest] == k.actors[dest].(caps := k'.actors[dest].caps)
    && Rights(k'.actors[dest]) == Rights(k.actors[dest]) + {c}
  }

  lemma GrantToExact(k: Kernel, dest: int, c: Capability)
    requires WF(k) && c.op != 0
    ensures var (k', rc) := GrantTo(k, dest, c.op, c.target);
            && (rc == 0 <==> SlotOk(k, dest) && Empties(k.actors[dest].caps) > 0)
            && (if rc == 0 then GaveRight(k, dest, c, k') else rc == -1 && k' == k)
  {
    if SlotOk(k, dest) {
      AddCapRights(k.actors[dest], c);
      EmptiesZero(k.actors[dest].caps);
      assert k.actors[dest := k.actors[dest]] == k.actors;
    }
  }

  /** SYS_GRANT hands on exactly a right its caller holds, to a slot with an empty entry; and otherwise does nothing. */
  lemma DelegationExact(k: Kernel, dest: int, c: Capability)
    requires Enabled(k, SysGrant(dest, c.op, c.target)) && 0 <= k.current && c.op != 0
    ensures var (k', out) := Step(k, SysGrant(dest, c.op, c.target));
            && (out == Code(0) <==> SlotOk(k, dest) && c in k.actors[k.current].caps && Empties(k.actors[dest].caps) > 0)
            && (if out == Code(0) then GaveRight(k, dest, c, k') else out == Code(-1) && k' == k)
  {
    GrantToExact(k, dest, c);
    assert Step(k, SysGrant(dest, c.op, c.target)) == Coded(Delegate(k, dest, c.op, c.target));
  }

  /** kernel_main's grants need no right to make. */
  lemma BootGrantExact(k: Kernel, dest: int, c: Capability)
    requires Enabled(k, BootGrant(dest, c.op, c.target)) && c.op != 0
    ensures var (k', out) := Step(k, BootGrant(dest, c.op, c.target));
            && (out == Code(0) <==> SlotOk(k, dest) && Empties(k.actors[dest].caps) > 0)
            && (if out == Code(0) then GaveRight(k, dest, c, k') else out == Code(-1) && k' == k)
  {
    GrantToExact(k, dest, c);
    assert Step(k, BootGrant(dest, c.op, c.target)) == Coded(GrantTo(k, dest, c.op, c.target));
  }

  // ---- with it, the store answers as a map --------------------------------------------------------

  predicate IsObjectCall(e: Event) {
    || e.SysRead? || e.SysWriteObject? || e.SysPromote? || e.SysReject? || e.SysLookup? || e.SysRename? || e.SysDelete?
    || e.SysCreate?
  }

  /** The same call to the map. */
  function CommandOf(e: Event): StoreRefinement.Command
    requires IsObjectCall(e)
  {
    match e
    case SysRead(id, len) => StoreRefinement.DoRead(id, len)
    case SysWriteObject(id, buf) => StoreRefinement.DoWrite(id, buf)
    case SysPromote(id) => StoreRefinement.DoPromote(id)
    case SysReject(id) => StoreRefinement.DoReject(id)
    case SysLookup(name) => StoreRefinement.DoLookup(name)
    case SysRename(id, name) => StoreRefinement.DoRename(id, name)
    case SysDelete(id) => StoreRefinement.DoDelete(id)
    case SysCreate(name) => StoreRefinement.DoCreateNamed(name)
  }

  predicate Answers(out: Outcome, r: StoreRefinement.Reply) {
    match r
    case Code(c) => out == Code(c)
    case Bytes(b) => out == Bytes(b)
  }

  /** The store and the reply are the command's, and nothing else changes. */
  predicate Executed(k: Kernel, k': Kernel, out: Outcome, s': StoreSpec.Store, r: StoreRefinement.Reply) {
    k' == k.(store := s') && Answers(out, r)
  }

  lemma ReadIsCommand(k: Kernel, e: Event)
    requires Started(k) && e.SysRead? && NeededRight(e).value in Me(k).caps
    ensures var (k', out) := StoreStep(k, e); var (s', r) := StoreRefinement.Exec(k.store, CommandOf(e)); Executed(k, k', out, s', r)
  {
    assert StoreStep(k, e) == (k, Bytes(StoreSpec.Read(k.store, e.id, e.len)));
  }

  lemma WriteIsCommand(k: Kernel, e: Event)
    requires Started(k) && e.SysWriteObject? && NeededRight(e).value in Me(k).caps
    ensures var (k', out) := StoreStep(k, e); var (s', r) := StoreRefinement.Exec(k.store, CommandOf(e)); Executed(k, k', out, s', r)
  {
    assert StoreStep(k, e) == Stored(k, StoreSpec.Write(k.store, e.id, e.buf));
  }

  lemma PromoteIsCommand(k: Kernel, e: Event)
    requires Started(k) && e.SysPromote? && NeededRight(e).value in Me(k).caps
    ensures var (k', out) := StoreStep(k, e); var (s', r) := StoreRefinement.Exec(k.store, CommandOf(e)); Executed(k, k', out, s', r)
  {
    assert StoreStep(k, e) == Stored(k, StoreSpec.Promote(k.store, e.id));
  }

  lemma RejectIsCommand(k: Kernel, e: Event)
    requires Started(k) && e.SysReject? && NeededRight(e).value in Me(k).caps
    ensures var (k', out) := StoreStep(k, e); var (s', r) := StoreRefinement.Exec(k.store, CommandOf(e)); Executed(k, k', out, s', r)
  {
    assert StoreStep(k, e) == Stored(k, StoreSpec.Reject(k.store, e.id));
  }

  lemma LookupIsCommand(k: Kernel, e: Event)
    requires Started(k) && e.SysLookup?
    ensures var (k', out) := StoreStep(k, e); var (s', r) := StoreRefinement.Exec(k.store, CommandOf(e)); Executed(k, k', out, s', r)
  {
    assert StoreStep(k, e) == (k, Code(StoreSpec.Lookup(k.store, e.name)));
  }

  lemma RenameIsCommand(k: Kernel, e: Event)
    requires Started(k) && e.SysRename? && NeededRight(e).value in Me(k).caps
    ensures var (k', out) := StoreStep(k, e); var (s', r) := StoreRefinement.Exec(k.store, CommandOf(e)); Executed(k, k', out, s', r)
  {
    assert StoreStep(k, e) == Stored(k, StoreSpec.Rename(k.store, e.id, e.name));
  }

  lemma DeleteIsCommand(k: Kernel, e: Event)
    requires Started(k) && e.SysDelete? && NeededRight(e).value in Me(k).caps
    ensures var (k', out) := StoreStep(k, e); var (s', r) := StoreRefinement.Exec(k.store, CommandOf(e)); Executed(k, k', out, s', r)
  {
    assert StoreStep(k, e) == Stored(k, StoreSpec.Delete(k.store, e.id));
  }

  lemma StoreStepIsCommand(k: Kernel, e: Event)
    requires Started(k) && IsObjectCall(e) && !e.SysCreate?
    requires NeededRight(e).Some? ==> NeededRight(e).value in k.actors[k.current].caps
    ensures var (k', out) := StoreStep(k, e); var (s', r) := StoreRefinement.Exec(k.store, CommandOf(e)); Executed(k, k', out, s', r)
  {
    if e.SysRead? {
      ReadIsCommand(k, e);
    } else if e.SysWriteObject? {
      WriteIsCommand(k, e);
    } else if e.SysPromote? {
      PromoteIsCommand(k, e);
    } else if e.SysReject? {
      RejectIsCommand(k, e);
    } else if e.SysLookup? {
      LookupIsCommand(k, e);
    } else if e.SysRename? {
      RenameIsCommand(k, e);
    } else {
      DeleteIsCommand(k, e);
    }
  }

  lemma CallIsCommand(k: Kernel, e: Event)
    requires Enabled(k, e) && 0 <= k.current && IsObjectCall(e) && !e.SysCreate?
    requires NeededRight(e).Some? ==> NeededRight(e).value in k.actors[k.current].caps
    ensures var (k', out) := Step(k, e); var (s', r) := StoreRefinement.Exec(k.store, CommandOf(e)); Executed(k, k', out, s', r)
  {
    Dispatch(k, e);
    StoreStepIsCommand(k, e);
  }

  lemma CreateIsCommand(k: Kernel, name: Directory.CString)
    requires Enabled(k, SysCreate(name)) && 0 <= k.current && HasCap(Me(k), CAP_CREATE_OBJECT, 0)
    ensures var (k', out) := Step(k, SysCreate(name)); var (s', id) := StoreSpec.CreateNamed(k.store, name);
            k'.store == s' && out == Code(id)
  {
    assert Step(k, SysCreate(name)) == CreateByActor(k, name);
  }

  /** The map of objects has changed, and the call was answered, as the command says. */
  ghost predicate AnsweredAsMap(s: StoreSpec.Store, e: Event, out: Outcome, s': StoreSpec.Store, r: StoreRefinement.Reply)
    requires StoreRefinement.StoreInv(s) && IsObjectCall(e)
  {
    && StoreRefinement.StoreInv(s') && Answers(out, r)
    && StoreRefinement.MapExec(StoreRefinement.ViewOf(s), |s.objects|, CommandOf(e), StoreRefinement.ViewOf(s'), r)
  }

  lemma ExecAnswers(s: StoreSpec.Store, e: Event, out: Outcome, s': StoreSpec.Store, r: StoreRefinement.Reply)
    requires StoreRefinement.StoreInv(s) && IsObjectCall(e) && (s', r) == StoreRefinement.Exec(s, CommandOf(e)) && Answers(out, r)
    ensures AnsweredAsMap(s, e, out, s', r)
  {
    StoreRefinement.ExecRefines(s, CommandOf(e));
  }

  /** A storage call by somebody with the right to make it does to the map of objects, and answers, what its command does. */
  lemma ObjectCallsAnswerAsMap(k: Kernel, e: Event) returns (r: StoreRefinement.Reply)
    requires Enabled(k, e) && 0 <= k.current && IsObjectCall(e) && StoreRefinement.StoreInv(k.store)
    requires NeededRight(e).Some? ==> NeededRight(e).value in k.actors[k.current].caps
    ensures var (k', out) := Step(k, e);
            AnsweredAsMap(k.store, e, out, k'.store, r) && (!e.SysCreate? ==> k' == k.(store := k'.store))
  {
    r := StoreRefinement.Exec(k.store, CommandOf(e)).1;
    var (k', out) := Step(k, e);
    if e.SysCreate? {
      assert HasCap(Me(k), CAP_CREATE_OBJECT, 0);
      CreateIsCommand(k, e.name);
    } else {
      CallIsCommand(k, e);
    }
    ExecAnswers(k.store, e, out, k'.store, r);
  }

  /** SYS_LIST_OBJECTS fills in the nth live object's record, or nothing past the end. */
  lemma ListAnswers(k: Kernel, nth: int)
    requires Enabled(k, SysList(nth)) && 0 <= k.current && HasCap(Me(k), CAP_LIST_NAMES, 0)
    ensures var (k', out) := Step(k, SysList(nth)); var (l, v) := (StoreProperties.LiveIds(k.store, 0), StoreRefinement.ViewOf(k.store));
            && k' == k && out.Listed? && (out.entry.Some? <==> 0 <= nth < |l|)
            && (out.entry.Some? ==> var r := out.entry.value;
                                    r.id == l[nth] && r.id in v && r == StoreSpec.Listing(r.id, v[r.id].name, v[r.id].trust, |v[r.id].bytes|))
  {
    StoreProperties.ListingExact(k.store, nth);
    assert Step(k, SysList(nth)) == StoreStep(k, SysList(nth));
  }

  // ---- the creator's rights --------------------------------------------------------------------------

  /** What SYS_CREATE_NAME hands out, in this order. */
  function CreatorsRights(id: int): seq<Capability> {
    [Capability(CAP_READ_OBJECT, id), Capability(CAP_WRITE_OBJECT, id), Capability(CAP_RENAME_OBJECT, id), Capability(CAP_DELETE_OBJECT, id)]
  }

  /** As many of the four, in order, as the table has empty entries; with four all of them. */
  ghost predicate GainedRights(a: Actor, id: int, a': Actor) {
    && a' == a.(caps := a'.caps) && Rights(a') == Rights(a) + FirstOf(CreatorsRights(id), Empties(a.caps))
    && (Empties(a.caps) >= 4 ==> forall c :: c in CreatorsRights(id) ==> c in a'.caps)
  }

  lemma OwnerGains(a: Actor, id: int)
    ensures GainedRights(a, id, AddCaps(a, OwnerCaps(id)))
  {
    AddCapsRights(a, CreatorsRights(id));
    var a' := AddCaps(a, OwnerCaps(id));
    if Empties(a.caps) >= 4 {
      forall c | c in CreatorsRights(id)
        ensures c in a'.caps
      {
        assert c in FirstOf(CreatorsRights(id), Empties(a.caps));
      }
    }
  }

  lemma CreateStepIs(k: Kernel, name: Directory.CString)
    requires Enabled(k, SysCreate(name)) && 0 <= k.current
    ensures var (k', out) := Step(k, SysCreate(name));
            && out.Code?
            && (out.code >= 0 ==>
                  && HasCap(Me(k), CAP_CREATE_OBJECT, 0)
                  && k' == k.(store := k'.store, actors := k.actors[k.current := AddCaps(Me(k), OwnerCaps(out.code))]))
            && (out.code < 0 ==> k' == k.(store := k'.store))
  {
    if HasCap(Me(k), CAP_CREATE_OBJECT, 0) {
      assert Step(k, SysCreate(name)) == CreateByActor(k, name);
    } else {
      assert Step(k, SysCreate(name)) == Denied(k);
    }
  }

  /**
    The creator keeps what it held and gains as many of the four rights, in
    order, as its table has empty entries. Only its own table and the store
    change.
   */
  lemma CreatorGets(k: Kernel, name: Directory.CString)
    requires Enabled(k, SysCreate(name)) && 0 <= k.current
    ensures var (k', out) := Step(k, SysCreate(name)); var s := k.current;
            && out.Code? && SlotOk(k', s)
            && k' == k.(store := k'.store, actors := k.actors[s := k'.actors[s]])
            && (if out.code >= 0 then GainedRights(k.actors[s], out.code, k'.actors[s]) else k'.actors[s] == k.actors[s])
  {
    CreateStepIs(k, name);
    OwnerGains(Me(k), Step(k, SysCreate(name)).1.code);
  }

  // ---- and what they are good for -------------------------------------------------------------------

  /** A live object, and an actor outside receive that holds the four rights for it. */
  ghost predicate MayUse(k: Kernel, id: int) {
    && Started(k) && !Me(k).inReceive && StoreRefinement.StoreInv(k.store) && id in StoreRefinement.ViewOf(k.store)
    && forall c :: c in CreatorsRights(id) ==> c in k.actors[k.current].caps
  }

  lemma WriteReply(v: StoreRefinement.View, max: nat, id: int, buf: seq<byte>, v': StoreRefinement.View, r: StoreRefinement.Reply)
    requires id in v && StoreRefinement.MapExec(v, max, StoreRefinement.DoWrite(id, buf), v', r)
    ensures r == StoreRefinement.Code(if |buf| <= Directory.OBJECT_MAX_BYTES then |buf| else -1)
  {
  }

  /** No other live object has this name. */
  ghost predicate NobodyElseNamed(v: StoreRefinement.View, id: int, name: Directory.CString) {
    forall x :: x in v && x != id ==> v[x].name != name
  }

  lemma RenameReply(v: StoreRefinement.View, max: nat, id: int, name: Directory.CString, v': StoreRefinement.View, r: StoreRefinement.Reply)
    requires id in v && NobodyElseNamed(v, id, name) && StoreRefinement.MapExec(v, max, StoreRefinement.DoRename(id, name), v', r)
    ensures r == StoreRefinement.Code(0)
  {
    assert forall x :: StoreRefinement.Named(v, x, name) ==> x == id;
    if x :| StoreRefinement.Named(v, x, name) {
      StoreRefinement.LookupIs(v, name, id);
    } else {
      StoreRefinement.LookupIs(v, name, -1);
    }
  }

  lemma DeleteReply(v: StoreRefinement.View, max: nat, id: int, v': StoreRefinement.View, r: StoreRefinement.Reply)
    requires id in v && StoreRefinement.MapExec(v, max, StoreRefinement.DoDelete(id), v', r)
    ensures r == StoreRefinement.Code(0) && id !in v'
  {
  }

  lemma WriteWorks(k: Kernel, id: int, buf: seq<byte>)
    requires MayUse(k, id)
    ensures Enabled(k, SysWriteObject(id, buf))
    ensures Step(k, SysWriteObject(id, buf)).1 == Code(if |buf| <= Directory.OBJECT_MAX_BYTES then |buf| else -1)
  {
    assert CreatorsRights(id)[1] == Capability(CAP_WRITE_OBJECT, id);
    var r := ObjectCallsAnswerAsMap(k, SysWriteObject(id, buf));
    WriteReply(StoreRefinement.ViewOf(k.store), |k.store.objects|, id, buf, StoreRefinement.ViewOf(Step(k, SysWriteObject(id, buf)).0.store), r);
  }

  lemma RenameWorks(k: Kernel, id: int, name: Directory.CString)
    requires MayUse(k, id) && NobodyElseNamed(StoreRefinement.ViewOf(k.store), id, name)
    ensures Enabled(k, SysRename(id, name)) && Step(k, SysRename(id, name)).1 == Code(0)
  {
    assert CreatorsRights(id)[2] == Capability(CAP_RENAME_OBJECT, id);
    var r := ObjectCallsAnswerAsMap(k, SysRename(id, name));
    RenameReply(StoreRefinement.ViewOf(k.store), |k.store.objects|, id, name, StoreRefinement.ViewOf(Step(k, SysRename(id, name)).0.store), r);
  }

  lemma DeleteWorks(k: Kernel, id: int)
    requires MayUse(k, id)
    ensures Enabled(k, SysDelete(id)) && Step(k, SysDelete(id)).1 == Code(0)
    ensures id !in StoreRefinement.ViewOf(Step(k, SysDelete(id)).0.store)
  {
    assert CreatorsRights(id)[3] == Capability(CAP_DELETE_OBJECT, id);
    var r := ObjectCallsAnswerAsMap(k, SysDelete(id));
    DeleteReply(StoreRefinement.ViewOf(k.store), |k.store.objects|, id, StoreRefinement.ViewOf(Step(k, SysDelete(id)).0.store), r);
  }

  lemma CreatedIsLive(k: Kernel, name: Directory.CString)
    requires Enabled(k, SysCreate(name)) && 0 <= k.current && StoreRefinement.StoreInv(k.store)
    requires Step(k, SysCreate(name)).1.Code? && Step(k, SysCreate(name)).1.code >= 0
    ensures var (k', out) := Step(k, SysCreate(name)); StoreRefinement.StoreInv(k'.store) && out.code in StoreRefinement.ViewOf(k'.store)
  {
    CreateStepIs(k, name);
    var _ := ObjectCallsAnswerAsMap(k, SysCreate(name));
  }

  /**
    Whoever creates an object with four empty entries in its table can at once
    write it, rename it to any name not in use, and delete it.
   */
  lemma CreatorMayUse(k: Kernel, name: Directory.CString, id: int)
    requires Enabled(k, SysCreate(name)) && 0 <= k.current && StoreRefinement.StoreInv(k.store) && Empties(Me(k).caps) >= 4
    requires Step(k, SysCreate(name)).1 == Code(id) && id >= 0
    ensures MayUse(Step(k, SysCreate(name)).0, id)
    ensures var k' := Step(k, SysCreate(name)).0;
            && (forall buf: seq<byte> :: |buf| <= Directory.OBJECT_MAX_BYTES ==>
                  Enabled(k', SysWriteObject(id, buf)) && Step(k', SysWriteObject(id, buf)).1 == Code(|buf|))
            && Enabled(k', SysDelete(id)) && Step(k', SysDelete(id)).1 == Code(0)
            && (forall to: Directory.CString :: NobodyElseNamed(StoreRefinement.ViewOf(k'.store), id, to) ==>
                  Enabled(k', SysRename(id, to)) && Step(k', SysRename(id, to)).1 == Code(0))
  {
    CreatorGets(k, name);
    CreatedIsLive(k, name);
    var k' := Step(k, SysCreate(name)).0;
    UseRights(k', id);
  }

  lemma UseRights(k: Kernel, id: int)
    requires MayUse(k, id)
    ensures forall buf: seq<byte> :: |buf| <= Directory.OBJECT_MAX_BYTES ==>
              Enabled(k, SysWriteObject(id, buf)) && Step(k, SysWriteObject(id, buf)).1 == Code(|buf|)
    ensures Enabled(k, SysDelete(id)) && Step(k, SysDelete(id)).1 == Code(0)
    ensures forall to: Directory.CString :: NobodyElseNamed(StoreRefinement.ViewOf(k.store), id, to) ==>
              Enabled(k, SysRename(id, to)) && Step(k, SysRename(id, to)).1 == Code(0)
  {
    forall buf: seq<byte> | |buf| <= Directory.OBJECT_MAX_BYTES
      ensures Enabled(k, SysWriteObject(id, buf)) && Step(k, SysWriteObject(id, buf)).1 == Code(|buf|)
    {
      WriteWorks(k, id, buf);
    }
    DeleteWorks(k, id);
    forall to: Directory.CString | NobodyElseNamed(StoreRefinement.ViewOf(k.store), id, to)
      ensures Enabled(k, SysRename(id, to)) && Step(k, SysRename(id, to)).1 == Code(0)
    {
      RenameWorks(k, id, to);
    }
  }
}
