/**
  All that the pipeline's safety depends on: who is alive, what is queued, who
  may do what, and the two objects. One kernel step changes these only as
  `ViewStep` says.
 */
module QuarantineView {
  import opened Options
  import opened Words
  import opened ActorTable
  import opened Kernel
  import opened Lifecycle
  import opened Quarantine
  import Authority
  import Mailboxes
  import Scheduling
  import Immutability
  import Directory
  import StoreSpec
  import StoreRefinement

  datatype Item = Item(bytes: seq<byte>, trust: nat)

  /** The capabilities of a dead slot are those of nobody. */
  datatype View = View(alive: seq<bool>, queue: seq<seq<Message>>, caps: seq<set<Capability>>, items: seq<Item>)

  predicate Ours(id: int) {
    id == PAYLOAD_OBJECT_ID || id == SUSPICIOUS_OBJECT_ID
  }

  ghost predicate Viewable(k: Kernel) {
    && Scheduling.SchedInv(k) && StoreRefinement.StoreInv(k.store)
    && 0 in StoreRefinement.ViewOf(k.store) && 1 in StoreRefinement.ViewOf(k.store)
  }

  function CapsOf(a: Actor): set<Capability> {
    if a.state.Dead? then {} else set c | c in a.caps && c.op != 0
  }

  function ItemIn(s: StoreSpec.Store, id: int): Item
    requires StoreRefinement.StoreInv(s) && id in StoreRefinement.ViewOf(s)
  {
    Item(StoreRefinement.ViewOf(s)[id].bytes, StoreRefinement.ViewOf(s)[id].trust)
  }

  ghost function ViewOf(k: Kernel): (v: View)
    requires Viewable(k)
    ensures |v.alive| == |v.queue| == |v.caps| == |k.actors| && |v.items| == 2
  {
    View(seq(|k.actors|, s requires 0 <= s < |k.actors| => Alive(k, s)),
         seq(|k.actors|, s requires 0 <= s < |k.actors| => Queue(k.actors[s])),
         seq(|k.actors|, s requires 0 <= s < |k.actors| => CapsOf(k.actors[s])),
         [ItemIn(k.store, 0), ItemIn(k.store, 1)])
  }

  predicate Sized(v: View) {
    |v.alive| == |v.queue| == |v.caps| && |v.items| == 2
  }

  // ---- what one step may change ---------------------------------------------------------

  /** A slot comes alive only as the step's child, and dies only by its own exit or by termination. */
  predicate LifeStep(v: View, cur: nat, e: Event, out: Outcome, v': View)
    requires Sized(v) && Sized(v') && |v'.alive| == |v.alive| && cur < |v.alive|
  {
    && (var child := Child(e, out); child >= 0 ==> child < |v.alive| && !v.alive[child] && v'.alive[child])
    && (forall s :: 0 <= s < |v.alive| ==>
          && (v'.alive[s] && !v.alive[s] ==> s == Child(e, out))
          && (v.alive[s] && !v'.alive[s] ==>
                || (e.SysExit? && s == cur)
                || (e.SysTerminate? && e.target == s != cur && Capability(CAP_TERMINATE, s) in v.caps[cur])))
  }

  predicate SendsTo(v: View, cur: nat, e: Event, out: Outcome, s: int)
    requires Sized(v) && cur < |v.alive|
  {
    e.SysSend? && e.dest == s && out == Code(0) && Capability(CAP_SEND, s) in v.caps[cur]
  }

  predicate QueueStep(v: View, cur: nat, e: Event, out: Outcome, v': View, s: nat)
    requires Sized(v) && Sized(v') && |v'.alive| == |v.alive| && cur < |v.alive| && s < |v.alive|
  {
    && (s == Child(e, out) ==> v'.queue[s] == [])
    && (v.alive[s] ==>
          || (SendsTo(v, cur, e, out, s) && v'.queue[s] == v.queue[s] + [Message(e.mtype, cur, e.data)])
          || (s == cur && out.Received? && v.queue[s] == [out.msg] + v'.queue[s])
          || (v'.queue[s] == v.queue[s] && !(s == cur && out.Received?)))
  }

  /** The only ways to a capability that was not there before. */
  predicate NewCap(v: View, cur: nat, e: Event, out: Outcome, s: nat, c: Capability)
    requires Sized(v) && cur < |v.alive|
  {
    || (e == SysGrant(s, c.op, c.target) && out == Code(0) && c in v.caps[cur])
    || (Child(e, out) >= 0 && s == cur && c == Capability(CAP_SEND, Child(e, out)))
    || (Child(e, out) >= 0 && s == cur && c == Capability(CAP_TERMINATE, Child(e, out)))
    || (Child(e, out) >= 0 && s == Child(e, out) && c == Capability(CAP_SEND, cur))
    || (e.SysCreate? && s == cur && !Ours(c.target)
        && (c.op == CAP_READ_OBJECT || c.op == CAP_WRITE_OBJECT || c.op == CAP_RENAME_OBJECT || c.op == CAP_DELETE_OBJECT))
  }

  ghost predicate CapsStep(v: View, cur: nat, e: Event, out: Outcome, v': View, s: nat)
    requires Sized(v) && Sized(v') && |v'.alive| == |v.alive| && cur < |v.alive| && s < |v.alive|
  {
    && (forall c :: c in v'.caps[s] ==> c in v.caps[s] || NewCap(v, cur, e, out, s, c))
    && (v'.alive[s] ==> v.caps[s] <= v'.caps[s])
    && (!v'.alive[s] ==> v'.caps[s] == {})
    && (e.SysGrant? && e.dest == s && out == Code(0) && v'.alive[s] && e.op != 0 ==> Capability(e.op, e.target) in v'.caps[s])
  }

  /** The two objects, as far as the caller may touch them. */
  predicate ItemStep(v: View, cur: nat, e: Event, v': View, id: int)
    requires Sized(v) && Sized(v') && cur < |v.alive| && Ours(id)
  {
    var i := v.items[id];
    v'.items[id] ==
      if e.SysWriteObject? && e.id == id && Capability(CAP_WRITE_OBJECT, id) in v.caps[cur] && |e.buf| <= Directory.OBJECT_MAX_BYTES
      then Item(e.buf, Directory.UNTRUSTED)
      else if e.SysPromote? && e.id == id && Capability(CAP_PROMOTE_OBJECT, 0) in v.caps[cur] && i.trust < Directory.TRUSTED
      then i.(trust := i.trust + 1)
      else if e.SysReject? && e.id == id && Capability(CAP_PROMOTE_OBJECT, 0) in v.caps[cur]
      then i.(trust := Directory.REJECTED)
      else i
  }

  predicate ReadOut(v: View, cur: nat, e: Event, out: Outcome)
    requires Sized(v) && cur < |v.alive|
  {
    && (e.SysRead? && Ours(e.id) ==>
          out == Bytes(if Capability(CAP_READ_OBJECT, e.id) in v.caps[cur] && v.items[e.id].trust != Directory.REJECTED
                       then Some(var b := v.items[e.id].bytes; if |b| > e.len then b[..e.len] else b)
                       else None))
    && (out.Received? ==> e.SysReceive? || e.Resume?)
  }

  ghost predicate ViewStep(v: View, cur: nat, e: Event, out: Outcome, v': View) {
    && Sized(v) && Sized(v') && |v'.alive| == |v.alive| && cur < |v.alive| && v.alive[cur]
    && LifeStep(v, cur, e, out, v')
    && (forall s :: 0 <= s < |v.alive| ==> QueueStep(v, cur, e, out, v', s) && CapsStep(v, cur, e, out, v', s))
    && ItemStep(v, cur, e, v', 0) && ItemStep(v, cur, e, v', 1)
    && ReadOut(v, cur, e, out)
  }

  // ---- the kernel's steps are such steps --------------------------------------------------

  lemma HoldsIsCaps(k: Kernel, s: nat, c: Capability)
    requires SlotOk(k, s) && c.op != 0
    ensures c in CapsOf(k.actors[s]) <==> Authority.Holds(k, s, c)
  {
  }

  // ---- capabilities -----------------------------------------------------------------------

  /** Nobody who stays alive loses anything. */
  ghost predicate CapsGrow(k: Kernel, k': Kernel) {
    && |k'.actors| == |k.actors|
    && forall s, c: Capability :: c.op != 0 && Authority.Holds(k, s, c) && Alive(k', s) ==> Authority.Holds(k', s, c)
  }

  lemma GrantGrows(k: Kernel, dest: int, op: int, target: int)
    requires WF(k)
    ensures var (k', rc) := GrantTo(k, dest, op, target);
            && CapsGrow(k, k') && (rc != 0 ==> k' == k)
            && (rc == 0 && op != 0 ==> SlotOk(k', dest) && Capability(op, target) in k'.actors[dest].caps)
  {
    if SlotOk(k, dest) {
      AddCapEffect(k.actors[dest], op, target);
      var k' := GrantTo(k, dest, op, target).0;
      forall s, c: Capability | c.op != 0 && Authority.Holds(k, s, c) && Alive(k', s)
        ensures Authority.Holds(k', s, c)
      {
        if s == dest {
          assert HasCap(k.actors[dest], c.op, c.target);
        }
      }
    }
  }

  lemma {:induction false} AddCapsKeeps(a: Actor, cs: seq<Capability>, c: Capability)
    requires c.op != 0 && c in a.caps
    ensures c in AddCaps(a, cs).caps
    decreases |cs|
  {
    if cs != [] {
      AddCapEffect(a, cs[0].op, cs[0].target);
      assert HasCap(a, c.op, c.target);
      AddCapsKeeps(AddCap(a, cs[0].op, cs[0].target).0, cs[1..], c);
    }
  }

  lemma AdoptGrows(k: Kernel, spawner: int, child: int)
    requires WF(k) && SlotOk(k, spawner) && SlotOk(k, child)
    ensures CapsGrow(k, Adopt(k, spawner, child))
  {
    var a := k.actors[spawner];
    var cs := [Capability(CAP_SEND, child), Capability(CAP_TERMINATE, child)];
    var k1 := SetActor(k, spawner, AddCaps(a.(spawnCount := a.spawnCount + 1), cs));
    var k' := Adopt(k, spawner, child);
    forall s, c: Capability | c.op != 0 && Authority.Holds(k, s, c) && Alive(k', s)
      ensures Authority.Holds(k', s, c)
    {
      if s == spawner {
        AddCapsKeeps(a.(spawnCount := a.spawnCount + 1), cs, c);
      }
      assert c in k1.actors[s].caps;
      if s == child {
        AddCapEffect(k1.actors[child], CAP_SEND, spawner);
        assert HasCap(k1.actors[child], c.op, c.target);
      }
    }
  }

  lemma SpawnGrows(k: Kernel, entry: nat)
    requires WF(k)
    ensures CapsGrow(k, Spawn(k, entry).0)
  {
  }

  lemma SpawnChildGrows(k: Kernel, entry: nat)
    requires Started(k)
    ensures CapsGrow(k, SpawnChild(k, entry).0)
  {
    if MaySpawn(k) {
      SpawnGrows(k, entry);
      Scheduling.SpawnEffect(k, entry);
      var (k1, child) := Spawn(k, entry);
      if child >= 0 {
        AdoptGrows(k1, k.current, child);
        Scheduling.AdoptSame(k1, k.current, child);
        GrowsTrans(k, k1, Adopt(k1, k.current, child));
      }
    }
  }

  lemma GrowsTrans(k: Kernel, k1: Kernel, k2: Kernel)
    requires CapsGrow(k, k1) && CapsGrow(k1, k2) && Scheduling.SameSched(k1, k2)
    ensures CapsGrow(k, k2)
  {
    forall s, c: Capability | c.op != 0 && Authority.Holds(k, s, c) && Alive(k2, s)
      ensures Authority.Holds(k2, s, c)
    {
      assert Scheduling.SchedEq(k1.actors[s], k2.actors[s]);
      assert Authority.Holds(k1, s, c);
    }
  }

  lemma SpawnProgramGrows(k: Kernel, phys: nat, size: nat, entryOffset: nat)
    requires WF(k)
    ensures CapsGrow(k, SpawnProgram(k, phys, size, entryOffset).0)
  {
    SpawnGrows(k, Paging.PROGRAM_VBASE + entryOffset);
    Scheduling.SpawnEffect(k, Paging.PROGRAM_VBASE + entryOffset);
  }

  lemma SpawnProgramChildGrows(k: Kernel, phys: nat, size: nat, entryOffset: nat)
    requires Started(k)
    ensures CapsGrow(k, SpawnProgramChild(k, phys, size, entryOffset).0)
  {
    if MaySpawn(k) {
      SpawnProgramGrows(k, phys, size, entryOffset);
      var (k1, child) := SpawnProgram(k, phys, size, entryOffset);
      if child >= 0 {
        AdoptGrows(k1, k.current, child);
        Scheduling.AdoptSame(k1, k.current, child);
        GrowsTrans(k, k1, Adopt(k1, k.current, child));
      }
    }
  }

  lemma LoadProgramGrows(k: Kernel, id: int)
    requires Started(k)
    ensures CapsGrow(k, LoadProgram(k, id).0)
  {
    var bytes := StoreSpec.Read(k.store, id, Directory.OBJECT_MAX_BYTES);
    if bytes.Some? && ParseProgram(bytes.value).Some? {
      var image := ParseProgram(bytes.value).value;
      var pages := PagesFor(image.codeSize);
      var (mem, phys) := PageFrames.DmaPages(k.mem, pages);
      if phys.Some? {
        var k0 := k.(mem := mem);
        SpawnProgramChildGrows(k0, phys.value, pages * PageFrames.PAGE_SIZE, image.entryOffset);
        assert forall s, c :: Authority.Holds(k, s, c) ==> Authority.Holds(k0, s, c);
      }
    }
  }

  lemma CreateGrows(k: Kernel, name: Directory.CString)
    requires Started(k)
    ensures CapsGrow(k, CreateByActor(k, name).0)
  {
    var (k', r) := CreateByActor(k, name);
    forall s, c: Capability | c.op != 0 && Authority.Holds(k, s, c) && Alive(k', s)
      ensures Authority.Holds(k', s, c)
    {
      if s == k.current && r.code >= 0 {
        AddCapsKeeps(Me(k), OwnerCaps(r.code), c);
      }
    }
  }

  lemma KeptGrows(k: Kernel, k': Kernel)
    requires Authority.CapsKept(k, k')
    ensures CapsGrow(k, k')
  {
  }

  lemma StepGrows(k: Kernel, e: Event)
    requires Enabled(k, e) && 0 <= k.current && Mailboxes.CurrentLives(k)
    ensures CapsGrow(k, Step(k, e).0)
  {
    if e.SysSpawnProgram? {
      LoadProgramGrows(k, e.id);
    } else if e.SysSpawn? {
      SpawnChildGrows(k, e.entry);
    } else if e.SysCreate? {
      CreateGrows(k, e.name);
    } else if e.SysGrant? {
      GrantGrows(k, e.dest, e.op, e.target);
    } else {
      if Scheduling.Decides(k, e) {
        Authority.DecisionCaps(k, e);
      } else if e.SysDevice? || IsStoreCall(e) {
        Mailboxes.TableKept(k, e);
      } else {
        Authority.QuietCaps(k, e);
      }
      KeptGrows(k, Step(k, e).0);
    }
  }

  // ---- the objects --------------------------------------------------------------------------

  predicate CannotDelete(k: Kernel)
    requires Started(k)
  {
    !HasCap(Me(k), CAP_DELETE_OBJECT, 0) && !HasCap(Me(k), CAP_DELETE_OBJECT, 1)
  }

  /** ItemStep, said of the kernel and the store a step leaves. */
  ghost predicate ItemOk(k: Kernel, e: Event, s': StoreSpec.Store, id: int)
    requires Started(k) && StoreRefinement.StoreInv(k.store) && id in StoreRefinement.ViewOf(k.store)
  {
    && StoreRefinement.StoreInv(s') && id in StoreRefinement.ViewOf(s')
    && ItemIn(s', id) == ItemAfter(Me(k), ItemIn(k.store, id), e, id)
  }

  function ItemAfter(me: Actor, i: Item, e: Event, id: int): Item {
    if e.SysWriteObject? && e.id == id && HasCap(me, CAP_WRITE_OBJECT, id) && |e.buf| <= Directory.OBJECT_MAX_BYTES
    then Item(e.buf, Directory.UNTRUSTED)
    else if e.SysPromote? && e.id == id && HasCap(me, CAP_PROMOTE_OBJECT, 0) && i.trust < Directory.TRUSTED
    then i.(trust := i.trust + 1)
    else if e.SysReject? && e.id == id && HasCap(me, CAP_PROMOTE_OBJECT, 0)
    then i.(trust := Directory.REJECTED)
    else i
  }

  lemma WriteItem(s: StoreSpec.Store, x: int, buf: seq<byte>, id: int, s': StoreSpec.Store)
    requires StoreRefinement.StoreInv(s) && id in StoreRefinement.ViewOf(s) && s' == StoreSpec.Write(s, x, buf).0
    ensures StoreRefinement.StoreInv(s') && id in StoreRefinement.ViewOf(s')
    ensures ItemIn(s', id) == if x == id && |buf| <= Directory.OBJECT_MAX_BYTES then Item(buf, Directory.UNTRUSTED) else ItemIn(s, id)
  {
    StoreRefinement.WriteRefines(s, x, buf);
  }

  lemma PromoteItem(s: StoreSpec.Store, x: int, id: int, s': StoreSpec.Store)
    requires StoreRefinement.StoreInv(s) && id in StoreRefinement.ViewOf(s) && s' == StoreSpec.Promote(s, x).0
    ensures StoreRefinement.StoreInv(s') && id in StoreRefinement.ViewOf(s')
    ensures var i := ItemIn(s, id); ItemIn(s', id) == if x == id && i.trust < Directory.TRUSTED then i.(trust := i.trust + 1) else i
  {
    StoreRefinement.PromoteRefines(s, x);
  }

  lemma RejectItem(s: StoreSpec.Store, x: int, id: int, s': StoreSpec.Store)
    requires StoreRefinement.StoreInv(s) && id in StoreRefinement.ViewOf(s) && s' == StoreSpec.Reject(s, x).0
    ensures StoreRefinement.StoreInv(s') && id in StoreRefinement.ViewOf(s')
    ensures ItemIn(s', id) == if x == id then ItemIn(s, id).(trust := Directory.REJECTED) else ItemIn(s, id)
  {
    StoreRefinement.RejectRefines(s, x);
  }

  lemma KeptItem(s: StoreSpec.Store, s': StoreSpec.Store, id: int)
    requires Immutability.ObjectKept(s, s', id, false)
    ensures ItemIn(s', id) == ItemIn(s, id)
  {
  }

  /** The object after an event that was permitted. */
  function ItemAsked(i: Item, e: Event, id: int): Item {
    if e.SysWriteObject? && e.id == id && |e.buf| <= Directory.OBJECT_MAX_BYTES then Item(e.buf, Directory.UNTRUSTED)
    else if e.SysPromote? && e.id == id && i.trust < Directory.TRUSTED then i.(trust := i.trust + 1)
    else if e.SysReject? && e.id == id then i.(trust := Directory.REJECTED)
    else i
  }

  ghost predicate ItemDone(s: StoreSpec.Store, e: Event, id: int, s': StoreSpec.Store)
    requires StoreRefinement.StoreInv(s) && id in StoreRefinement.ViewOf(s)
  {
    && StoreRefinement.StoreInv(s') && id in StoreRefinement.ViewOf(s')
    && ItemIn(s', id) == ItemAsked(ItemIn(s, id), e, id)
  }

  lemma AskedItem(s: StoreSpec.Store, e: Event, id: int, s': StoreSpec.Store)
    requires StoreRefinement.StoreInv(s) && id in StoreRefinement.ViewOf(s) && !IsBoot(e) && (e.SysDelete? ==> e.id != id)
    requires s' == Immutability.Asked(s, e)
    ensures ItemDone(s, e, id, s')
  {
    if e.SysWriteObject? {
      WriteItem(s, e.id, e.buf, id, s');
    } else if e.SysPromote? {
      PromoteItem(s, e.id, id, s');
    } else if e.SysReject? {
      RejectItem(s, e.id, id, s');
    } else {
      Immutability.AskedKeeps(s, e, id, s');
      KeptItem(s, s', id);
    }
  }

  lemma ItemPermitted(k: Kernel, e: Event, i: Item, id: int)
    requires Enabled(k, e) && 0 <= k.current
    ensures ItemAfter(Me(k), i, e, id) == if Immutability.Permits(k, e) then ItemAsked(i, e, id) else i
  {
  }

  lemma StoreItem(k: Kernel, e: Event, id: int)
    requires Enabled(k, e) && 0 <= k.current && StoreRefinement.StoreInv(k.store) && id in StoreRefinement.ViewOf(k.store)
    requires e.SysDelete? && Immutability.Permits(k, e) ==> e.id != id
    ensures ItemOk(k, e, Immutability.StoreAfter(k, e), id)
  {
    ItemPermitted(k, e, ItemIn(k.store, id), id);
    if Immutability.Permits(k, e) {
      AskedItem(k.store, e, id, Immutability.StoreAfter(k, e));
    }
  }

  lemma ItemsOf(k: Kernel, e: Event, id: int)
    requires Enabled(k, e) && 0 <= k.current && CannotDelete(k) && Ours(id)
    requires StoreRefinement.StoreInv(k.store) && id in StoreRefinement.ViewOf(k.store)
    ensures ItemOk(k, e, Immutability.StoreAfter(k, e), id)
  {
    StoreItem(k, e, id);
  }

  // ---- together -------------------------------------------------------------------------------

  lemma LifeView(k: Kernel, e: Event, out: Outcome, k': Kernel)
    requires Viewable(k) && Viewable(k') && 0 <= k.current && LifeOk(k, e, out, k') && Mailboxes.CurrentLives(k)
    ensures LifeStep(ViewOf(k), k.current, e, out, ViewOf(k'))
  {
    var v, v' := ViewOf(k), ViewOf(k');
    forall s | 0 <= s < |k.actors|
      ensures v.alive[s] == Alive(k, s) && v'.alive[s] == Alive(k', s)
      ensures Capability(CAP_TERMINATE, s) in v.caps[k.current] <==> Authority.Holds(k, k.current, Capability(CAP_TERMINATE, s))
    {
    }
  }

  /** BoxStep, said of the queues. */
  predicate QueueOk(k: Kernel, e: Event, out: Outcome, k': Kernel, s: nat) {
    && SlotOk(k, s) && SlotOk(k', s) && Started(k)
    && ActorOk(k.actors[s]) && ActorOk(k'.actors[s])
    && (|| (e.SysSend? && e.dest == s && out == Code(0) && HasCap(Me(k), CAP_SEND, s)
            && Queue(k'.actors[s]) == Queue(k.actors[s]) + [Message(e.mtype, k.current, e.data)])
        || (s == k.current && out.Received? && Queue(k.actors[s]) == [out.msg] + Queue(k'.actors[s]))
        || (Queue(k'.actors[s]) == Queue(k.actors[s]) && !(s == k.current && out.Received?)))
  }

  lemma QueueOf(k: Kernel, e: Event, s: nat)
    requires Enabled(k, e) && SlotOk(k, s) && 0 <= k.current && Mailboxes.CurrentLives(k) && Alive(k, s)
    ensures QueueOk(k, e, Step(k, e).1, Step(k, e).0, s)
  {
    Mailboxes.StepBoxes(k, e, s);
    if Mailboxes.Accepts(k, e, s) {
      Mailboxes.SendExact(k, e.dest, e.mtype, e.data);
    }
    ReceivedByReceiving(k, e);
  }

  lemma ChildQueue(k: Kernel, e: Event, out: Outcome, k': Kernel, s: nat)
    requires Enabled(k, e) && SlotOk(k, s) && 0 <= k.current && Mailboxes.CurrentLives(k) && WF(k')
    requires (k', out) == Step(k, e) && LifeOk(k, e, out, k') && s == Child(e, out)
    ensures SlotOk(k', s) && Queue(k'.actors[s]) == []
  {
    Mailboxes.StepBoxes(k, e, s);
    assert Mailboxes.Restarts(k, k', s);
  }

  lemma QueueSaid(k: Kernel, e: Event, out: Outcome, k': Kernel, s: nat)
    requires Started(k) && Mailboxes.CurrentLives(k) && SlotOk(k, s) && Viewable(k) && Viewable(k') && |k'.actors| == |k.actors|
    requires Alive(k, s) ==> QueueOk(k, e, out, k', s)
    requires s == Child(e, out) ==> Queue(k'.actors[s]) == []
    ensures QueueStep(ViewOf(k), k.current, e, out, ViewOf(k'), s)
  {
    MyCaps(k, CAP_SEND, s);
  }

  lemma QueueView(k: Kernel, e: Event, s: nat)
    requires Enabled(k, e) && SlotOk(k, s) && 0 <= k.current && Mailboxes.CurrentLives(k) && Viewable(k) && Viewable(Step(k, e).0)
    requires LifeOk(k, e, Step(k, e).1, Step(k, e).0)
    ensures |Step(k, e).0.actors| == |k.actors|
    ensures QueueStep(ViewOf(k), k.current, e, Step(k, e).1, ViewOf(Step(k, e).0), s)
  {
    var (k', out) := Step(k, e);
    if Alive(k, s) {
      QueueOf(k, e, s);
    }
    if s == Child(e, out) {
      ChildQueue(k, e, out, k', s);
    }
    QueueSaid(k, e, out, k', s);
  }

  lemma ReceivedByReceiving(k: Kernel, e: Event)
    requires Enabled(k, e)
    ensures Step(k, e).1.Received? ==> e.SysReceive? || e.Resume?
  {
  }

  lemma GrantView(k: Kernel, e: Event)
    requires Enabled(k, e) && 0 <= k.current && e.SysGrant?
    ensures var (k', out) := Step(k, e);
            && (out != Code(0) ==> k' == k)
            && (out == Code(0) ==> HasCap(Me(k), e.op, e.target))
            && (out == Code(0) && e.op != 0 ==> SlotOk(k', e.dest) && Capability(e.op, e.target) in k'.actors[e.dest].caps)
  {
    GrantGrows(k, e.dest, e.op, e.target);
  }

  /** A capability that was not held before came one of the permitted ways. */
  lemma GrantedIsNew(k: Kernel, e: Event, out: Outcome, s: nat, c: Capability)
    requires Enabled(k, e) && 0 <= k.current && Mailboxes.CurrentLives(k) && Viewable(k)
    requires c.op != 0 && (s, c) in Authority.Granted(k, e, out)
    requires e.SysGrant? ==> out == Code(0)
    requires e.SysCreate? && out.Code? && out.code >= 0 ==> !StoreSpec.Live(k.store, out.code)
    ensures NewCap(ViewOf(k), k.current, e, out, s, c)
  {
    assert StoreSpec.Live(k.store, 0) && StoreSpec.Live(k.store, 1);
    assert c in Me(k).caps ==> c in CapsOf(Me(k));
  }

  lemma NewCapView(k: Kernel, e: Event, s: nat, c: Capability)
    requires Enabled(k, e) && SlotOk(k, s) && 0 <= k.current && Mailboxes.CurrentLives(k) && Viewable(k)
    requires c.op != 0 && Authority.Holds(Step(k, e).0, s, c) && !Authority.Holds(k, s, c)
    ensures NewCap(ViewOf(k), k.current, e, Step(k, e).1, s, c)
  {
    Authority.StepOnlyNew(k, e);
    if e.SysGrant? {
      GrantView(k, e);
    } else if e.SysCreate? {
      Authority.CreatedIsFresh(k, e);
    }
    GrantedIsNew(k, e, Step(k, e).1, s, c);
  }

  /** CapsStep, said of two kernels. */
  lemma CapsSaid(k: Kernel, e: Event, out: Outcome, k': Kernel, s: nat)
    requires Viewable(k) && Viewable(k') && 0 <= k.current && SlotOk(k, s) && |k'.actors| == |k.actors|
    requires forall c :: c in CapsOf(k'.actors[s]) ==> c in CapsOf(k.actors[s]) || NewCap(ViewOf(k), k.current, e, out, s, c)
    requires forall c :: c in CapsOf(k.actors[s]) && Alive(k', s) ==> c in CapsOf(k'.actors[s])
    requires e.SysGrant? && e.dest == s && out == Code(0) && e.op != 0 ==> Capability(e.op, e.target) in k'.actors[s].caps
    ensures CapsStep(ViewOf(k), k.current, e, out, ViewOf(k'), s)
  {
  }

  lemma CapsView(k: Kernel, e: Event, s: nat)
    requires Enabled(k, e) && SlotOk(k, s) && 0 <= k.current && Mailboxes.CurrentLives(k) && Viewable(k) && Viewable(Step(k, e).0)
    ensures |Step(k, e).0.actors| == |k.actors|
    ensures CapsStep(ViewOf(k), k.current, e, Step(k, e).1, ViewOf(Step(k, e).0), s)
  {
    var (k', out) := Step(k, e);
    StepGrows(k, e);
    if e.SysGrant? {
      GrantView(k, e);
    }
    NewCapsView(k, e, s);
    OldCapsView(k, k', s);
    CapsSaid(k, e, out, k', s);
  }

  lemma NewCapsView(k: Kernel, e: Event, s: nat)
    requires Enabled(k, e) && SlotOk(k, s) && 0 <= k.current && Mailboxes.CurrentLives(k) && Viewable(k) && Viewable(Step(k, e).0)
    requires |Step(k, e).0.actors| == |k.actors|
    ensures forall c :: c in CapsOf(Step(k, e).0.actors[s]) ==>
              c in CapsOf(k.actors[s]) || NewCap(ViewOf(k), k.current, e, Step(k, e).1, s, c)
  {
    var (k', out) := Step(k, e);
    forall c | c in CapsOf(k'.actors[s])
      ensures c in CapsOf(k.actors[s]) || NewCap(ViewOf(k), k.current, e, out, s, c)
    {
      if !Authority.Holds(k, s, c) {
        NewCapView(k, e, s, c);
      }
    }
  }

  lemma OldCapsView(k: Kernel, k': Kernel, s: nat)
    requires CapsGrow(k, k') && SlotOk(k, s) && |k'.actors| == |k.actors|
    ensures forall c :: c in CapsOf(k.actors[s]) && Alive(k', s) ==> c in CapsOf(k'.actors[s])
  {
    forall c | c in CapsOf(k.actors[s]) && Alive(k', s)
      ensures c in CapsOf(k'.actors[s])
    {
      assert Authority.Holds(k, s, c);
    }
  }

  lemma MyCaps(k: Kernel, op: int, target: int)
    requires Started(k) && Mailboxes.CurrentLives(k) && op != 0
    ensures HasCap(Me(k), op, target) <==> Capability(op, target) in CapsOf(Me(k))
  {
  }

  lemma ItemView(k: Kernel, e: Event, k': Kernel, id: int)
    requires Viewable(k) && Viewable(k') && Started(k) && Mailboxes.CurrentLives(k) && Ours(id) && ItemOk(k, e, k'.store, id)
    ensures ItemStep(ViewOf(k), k.current, e, ViewOf(k'), id)
  {
    MyCaps(k, CAP_WRITE_OBJECT, id);
    MyCaps(k, CAP_PROMOTE_OBJECT, 0);
    assert ViewOf(k).items[id] == ItemIn(k.store, id) && ViewOf(k').items[id] == ItemIn(k'.store, id);
  }

  lemma ReadView(k: Kernel, e: Event)
    requires Viewable(k) && Enabled(k, e) && 0 <= k.current && Mailboxes.CurrentLives(k)
    ensures ReadOut(ViewOf(k), k.current, e, Step(k, e).1)
  {
    ReceivedByReceiving(k, e);
    if e.SysRead? && Ours(e.id) {
      MyCaps(k, CAP_READ_OBJECT, e.id);
      StoreRefinement.ReadRefines(k.store, e.id, e.len);
      assert ViewOf(k).items[e.id] == ItemIn(k.store, e.id);
    }
  }

  lemma StaysViewable(k: Kernel, e: Event)
    requires Viewable(k) && Enabled(k, e) && 0 <= k.current && CannotDelete(k)
    ensures Viewable(Step(k, e).0)
    ensures ItemOk(k, e, Step(k, e).0.store, 0) && ItemOk(k, e, Step(k, e).0.store, 1)
  {
    Scheduling.StepKeepsSched(k, e);
    Immutability.StepStore(k, e);
    ItemsOf(k, e, 0);
    ItemsOf(k, e, 1);
  }

  /** Every step of the kernel is a step of the view. */
  lemma KernelViewStep(k: Kernel, e: Event)
    requires Viewable(k) && Enabled(k, e) && 0 <= k.current && CannotDelete(k)
    ensures Viewable(Step(k, e).0)
    ensures ViewStep(ViewOf(k), k.current, e, Step(k, e).1, ViewOf(Step(k, e).0))
  {
    StaysViewable(k, e);
    LifeOf(k, e);
    var (k', out) := Step(k, e);
    LifeView(k, e, out, k');
    forall s | 0 <= s < |k.actors|
      ensures QueueStep(ViewOf(k), k.current, e, out, ViewOf(k'), s)
      ensures CapsStep(ViewOf(k), k.current, e, out, ViewOf(k'), s)
    {
      QueueView(k, e, s);
      CapsView(k, e, s);
    }
    ItemView(k, e, k', 0);
    ItemView(k, e, k', 1);
    ReadView(k, e);
  }
}
