/** Exact effects of single steps on a kernel whose current actor can run: enough to write a run down. */
module Scenes {
  import opened Options
  import opened Words
  import opened ActorTable
  import opened Kernel
  import Mailboxes
  import Paging
  import PageFrames
  import Scheduling

  /** Nobody dead still has a stack page to give back. */
  predicate Tidy(k: Kernel) {
    forall i :: 0 <= i < |k.actors| && k.actors[i].state.Dead? ==> k.actors[i].stackPage == 0
  }

  predicate Calm(k: Kernel) {
    Started(k) && Tidy(k) && Runnable(Me(k))
  }

  /** Slot s can run, is in no receive, and has this mail. */
  predicate Stands(k: Kernel, s: int, mail: seq<Message>) {
    && SlotOk(k, s) && ActorOk(k.actors[s]) && Runnable(k.actors[s]) && !k.actors[s].inReceive
    && Queue(k.actors[s]) == mail
  }

  /** What neither messages nor turns change: pages, tables, capabilities, quotas and who is dead. */
  predicate SameRights(k: Kernel, k': Kernel) {
    && k'.mem == k.mem && k'.spaces == k.spaces && |k'.actors| == |k.actors|
    && forall i :: 0 <= i < |k.actors| ==> SameRow(k.actors[i], k'.actors[i])
  }

  predicate SameRow(a: Actor, b: Actor) {
    && b.caps == a.caps && b.stackPage == a.stackPage && b.spawnCount == a.spawnCount && b.spawnQuota == a.spawnQuota
    && (b.state.Dead? <==> a.state.Dead?)
  }

  lemma SameRightsTrans(k: Kernel, k1: Kernel, k2: Kernel)
    requires SameRights(k, k1) && SameRights(k1, k2)
    ensures SameRights(k, k2)
  {
    forall i | 0 <= i < |k.actors|
      ensures SameRow(k.actors[i], k2.actors[i])
    {
      assert SameRow(k.actors[i], k1.actors[i]) && SameRow(k1.actors[i], k2.actors[i]);
    }
  }

  // ---- turns -----------------------------------------------------------------------------

  lemma {:induction false} NothingToReap(k: Kernel, i: nat)
    requires WF(k) && Tidy(k) && i <= |k.actors|
    ensures ReapFrom(k, i) == k
    decreases |k.actors| - i
  {
    if i < |k.actors| {
      assert ReapSlot(k, i) == k;
      NothingToReap(k, i + 1);
    }
  }

  /** The row, but for whether it is its turn. */
  function Rested(a: Actor): Actor {
    if a.state.Running? then a.(state := Ready) else a
  }

  /** Only whose turn it is may differ. */
  predicate SameButTurn(k: Kernel, k': Kernel) {
    && k'.mem == k.mem && k'.spaces == k.spaces && k'.store == k.store && k'.halted == k.halted && |k'.actors| == |k.actors|
    && forall s :: 0 <= s < |k.actors| ==> Rested(k'.actors[s]) == Rested(k.actors[s])
  }

  lemma TickSwitches(k: Kernel)
    requires Calm(k)
    ensures var k0 := SetMe(k, Me(k).(state := Ready)); var next := PickFrom(k0.actors, k.current, 1);
            Enabled(k, Timer) && next != -1 && Step(k, Timer) == (SwitchTo(k0, next), Suspended)
  {
    var k0 := SetMe(k, Me(k).(state := Ready));
    NothingToReap(k0, 0);
    Scheduling.PickFindsRunnable(k0.actors, k.current);
    assert Runnable(k0.actors[k.current]);
    assert Step(k, Timer) == (ScheduleNext(k0), Suspended);
  }

  lemma SwitchKeeps(k: Kernel, next: int)
    requires Calm(k) && SlotOk(k, next) && Runnable(SetMe(k, Me(k).(state := Ready)).actors[next])
    ensures var k' := SwitchTo(SetMe(k, Me(k).(state := Ready)), next); Calm(k') && SameButTurn(k, k')
  {
  }

  /** A tick: whoever is next in turn runs, and nothing else changes. */
  lemma Tick(k: Kernel)
    requires Calm(k)
    ensures Enabled(k, Timer)
    ensures var (k', out) := Step(k, Timer);
            && out.Suspended? && Calm(k') && SameButTurn(k, k')
            && k'.current == PickFrom(SetMe(k, Me(k).(state := Ready)).actors, k.current, 1)
  {
    TickSwitches(k);
    SwitchKeeps(k, Step(k, Timer).0.current);
  }

  /** Each tick that does not reach a runnable slot comes closer to it. */
  lemma TickApproaches(k: Kernel, target: nat)
    requires Calm(k) && SlotOk(k, target) && Runnable(k.actors[target]) && target != k.current
    ensures var k' := Step(k, Timer).0; var n := |k.actors|;
            && |k'.actors| == n && 0 <= k'.current < n && Runnable(k'.actors[target])
            && (k'.current == target || Scheduling.Distance(n, k'.current, target) < Scheduling.Distance(n, k.current, target))
  {
    Tick(k);
    var k0 := SetMe(k, Me(k).(state := Ready));
    Scheduling.PickNearest(k0.actors, k.current, 1);
    assert Runnable(k0.actors[target]);
    var k' := Step(k, Timer).0;
    assert Rested(k'.actors[target]) == Rested(k.actors[target]);
  }

  lemma TurnKeeps(k: Kernel, k': Kernel, s: int, mail: seq<Message>)
    requires SameButTurn(k, k') && Stands(k, s, mail)
    ensures Stands(k', s, mail)
  {
    assert Rested(k'.actors[s]) == Rested(k.actors[s]);
    Mailboxes.SameBoxQueue(k.actors[s], k'.actors[s]);
  }

  lemma TurnKeepsRights(k: Kernel, k': Kernel)
    requires SameButTurn(k, k')
    ensures SameRights(k, k')
  {
    forall i | 0 <= i < |k.actors|
      ensures SameRow(k.actors[i], k'.actors[i])
    {
      assert Rested(k'.actors[i]) == Rested(k.actors[i]);
    }
  }

  // ---- messages --------------------------------------------------------------------------

  /** The step changed the mail of slot s and nothing else. */
  predicate MailChanged(k: Kernel, k': Kernel, s: int, mail: seq<Message>) {
    && Calm(k') && k'.current == k.current && k'.store == k.store && SameRights(k, k')
    && (forall n :: 0 <= n < |k.actors| && n != s ==> k'.actors[n] == k.actors[n])
    && Stands(k', s, mail)
  }

  lemma Sends(k: Kernel, dest: int, mtype: u64, data: u64)
    requires Calm(k) && !Me(k).inReceive && HasCap(Me(k), CAP_SEND, dest) && dest != k.current && Stands(k, dest, [])
    ensures Enabled(k, SysSend(dest, mtype, data))
    ensures var (k', out) := Step(k, SysSend(dest, mtype, data));
            out == Code(0) && MailChanged(k, k', dest, [Message(mtype, k.current, data)])
  {
    Mailboxes.SendExact(k, dest, mtype, data);
    assert Queue(k.actors[dest]) + [Message(mtype, k.current, data)] == [Message(mtype, k.current, data)];
    assert Step(k, SysSend(dest, mtype, data)) == Coded(Send(k, dest, mtype, data));
  }

  lemma Receives(k: Kernel, m: Message)
    requires Calm(k) && Stands(k, k.current, [m])
    ensures Enabled(k, SysReceive)
    ensures var (k', out) := Step(k, SysReceive); out == Received(m) && MailChanged(k, k', k.current, [])
  {
    DequeueTakesFront(Me(k));
    var a := Dequeue(Me(k));
    Mailboxes.SameBoxQueue(a, a.(inReceive := false));
    assert ([Front(Me(k))] + Queue(a))[0] == [m][0];
    assert Step(k, SysReceive) == (SetMe(k, a.(inReceive := false)), Received(m));
  }

  /** A call that changes nothing at all. */
  lemma Unchanged(k: Kernel, mail: seq<Message>)
    requires Calm(k) && Stands(k, k.current, mail)
    ensures MailChanged(k, k, k.current, mail)
  {
  }

  lemma ReadRefused(k: Kernel, id: int, len: nat)
    requires Started(k) && !Me(k).inReceive && !HasCap(Me(k), CAP_READ_OBJECT, id)
    ensures Enabled(k, SysRead(id, len)) && Step(k, SysRead(id, len)) == (k, Bytes(None))
  {
  }

  lemma FreeEntry(a: Actor)
    ensures FreeCap(a.caps) < |a.caps| ==> !TableFull(a)
  {
    if FreeCap(a.caps) < |a.caps| {
      assert a.caps[FreeCap(a.caps)] in a.caps;
    }
  }

  lemma GrantRefused(k: Kernel, w: int, op: int, target: int)
    requires Started(k) && !Me(k).inReceive && SlotOk(k, w) && TableFull(k.actors[w])
    ensures Enabled(k, SysGrant(w, op, target)) && Step(k, SysGrant(w, op, target)) == (k, Code(-1))
  {
    var a := k.actors[w];
    FreeEntry(a);
    assert k.actors[w := a] == k.actors;
  }

  // ---- a child -----------------------------------------------------------------------------

  /** The next spawn finds slot w, a page for its stack and an address space. */
  predicate RoomFor(k: Kernel, w: nat) {
    && WF(k) && SlotOk(k, w) && k.actors[w].state.Dead? && |k.actors[w].caps| > 0
    && (forall s :: 0 <= s < w ==> !k.actors[s].state.Dead?)
    && var page := PageFrames.AllocPage(k.mem).1;
       page.Some? && Paging.CreateSpace(k.spaces, w, page.value, STACK_SIZE).1 != 0
  }

  lemma SameRoom(k: Kernel, k': Kernel, w: nat)
    requires RoomFor(k, w) && SameRights(k, k') && WF(k')
    ensures RoomFor(k', w)
  {
    forall s | 0 <= s <= w
      ensures k'.actors[s].state.Dead? <==> k.actors[s].state.Dead?
    {
      assert SameRow(k.actors[s], k'.actors[s]);
    }
    assert SameRow(k.actors[w], k'.actors[w]);
  }

  /** Slot w has a new occupant, and it and its parent may talk. */
  predicate Born(k: Kernel, k': Kernel, w: nat)
    requires Started(k)
  {
    && Calm(k') && k'.current == k.current && k'.store == k.store && |k'.actors| == |k.actors| && Stands(k', w, [])
    && (forall n :: 0 <= n < |k.actors| && n != w && n != k.current ==> k'.actors[n] == k.actors[n])
    && Mailboxes.SameBox(k.actors[k.current], k'.actors[k.current])
    && k'.actors[k.current].inReceive == k.actors[k.current].inReceive
    && HasCap(k'.actors[k.current], CAP_SEND, w) && HasCap(k'.actors[w], CAP_SEND, k.current)
  }

  lemma {:induction false} FirstDeadIs(actors: seq<Actor>, n: nat, i: nat)
    requires i <= n < |actors| && actors[n].state.Dead? && forall s :: i <= s < n ==> !actors[s].state.Dead?
    ensures FirstDead(actors, i) == n
    decreases n - i
  {
    if i < n {
      FirstDeadIs(actors, n, i + 1);
    }
  }

  lemma {:induction false} AddCapsKeep(a: Actor, cs: seq<Capability>, c: Capability)
    requires c.op != 0 && c in a.caps
    ensures c in AddCaps(a, cs).caps
    decreases |cs|
  {
    if cs != [] {
      AddCapEffect(a, cs[0].op, cs[0].target);
      assert HasCap(a, c.op, c.target);
      AddCapsKeep(AddCap(a, cs[0].op, cs[0].target).0, cs[1..], c);
    }
  }

  /** A table with an empty entry takes one more. */
  lemma AddedFirst(a: Actor, c: Capability)
    requires !TableFull(a)
    ensures c in AddCap(a, c.op, c.target).0.caps
  {
    AddCapEffect(a, c.op, c.target);
    assert FreeCap(a.caps) < |a.caps|;
    assert HasCap(AddCap(a, c.op, c.target).0, c.op, c.target);
  }

  lemma SpawnsFirst(k: Kernel, entry: nat, w: nat)
    requires Calm(k) && RoomFor(k, w)
    ensures var (k1, child) := Spawn(k, entry);
            && child == w && k1.current == k.current && k1.halted == k.halted && k1.store == k.store
            && k1.actors == k.actors[w := k1.actors[w]]
            && var a := k1.actors[w]; a.state.Ready? && !a.inReceive && a.count == 0 && NO_CAP in a.caps
  {
    FirstDeadIs(k.actors, w, 0);
    var k1 := Spawn(k, entry).0;
    assert k1.actors[w].caps[0] == NO_CAP;
  }

  lemma Adopts(k: Kernel, k1: Kernel, w: nat)
    requires Calm(k) && WF(k1) && SlotOk(k, w) && SlotOk(k1, w) && k.actors[w].state.Dead? && !TableFull(Me(k))
    requires k1.current == k.current && k1.halted == k.halted && k1.store == k.store && k1.actors == k.actors[w := k1.actors[w]]
    requires var a := k1.actors[w]; a.state.Ready? && !a.inReceive && a.count == 0 && NO_CAP in a.caps
    ensures Born(k, Adopt(k1, k.current, w), w)
  {
    var a := Me(k).(spawnCount := Me(k).spawnCount + 1);
    var up, down := Capability(CAP_SEND, w), Capability(CAP_TERMINATE, w);
    AddedFirst(a, up);
    assert [up, down][1..] == [down];
    AddCapsKeep(AddCap(a, up.op, up.target).0, [down], up);
    var i := k1.actors[w];
    AddedFirst(i, Capability(CAP_SEND, k.current));
    var k' := Adopt(k1, k.current, w);
    assert k'.actors[k.current] == AddCaps(a, [up, down]);
    assert k'.actors[w] == AddCap(i, CAP_SEND, k.current).0;
  }

  lemma SpawnsChild(k: Kernel, entry: nat, w: nat)
    requires Calm(k) && !Me(k).inReceive && MaySpawn(k) && !TableFull(Me(k)) && RoomFor(k, w)
    ensures Enabled(k, SysSpawn(entry))
    ensures var (k', out) := Step(k, SysSpawn(entry)); out == Code(w) && Born(k, k', w)
  {
    SpawnsFirst(k, entry, w);
    Adopts(k, Spawn(k, entry).0, w);
    assert Step(k, SysSpawn(entry)) == Coded(SpawnChild(k, entry));
  }

  // ---- a table fills -------------------------------------------------------------------------

  /** Only w's capabilities differ, none is lost, and its first n entries are taken. */
  predicate Filled(k: Kernel, k': Kernel, w: nat, n: nat)
    requires SlotOk(k, w)
  {
    && |k'.actors| == |k.actors| && k' == k.(actors := k'.actors) && k'.actors == k.actors[w := k'.actors[w]]
    && k'.actors[w] == k.actors[w].(caps := k'.actors[w].caps) && |k'.actors[w].caps| == |k.actors[w].caps|
    && (forall c: Capability :: c.op != 0 && c in k.actors[w].caps ==> c in k'.actors[w].caps)
    && (FreeCap(k'.actors[w].caps) >= n || TableFull(k'.actors[w]))
  }

  lemma FilledEntry(a: Actor, c: Capability)
    requires c.op != 0
    ensures var a' := AddCap(a, c.op, c.target).0; TableFull(a') || FreeCap(a'.caps) > FreeCap(a.caps)
    ensures TableFull(a) ==> AddCap(a, c.op, c.target).0 == a
  {
    var i := FreeCap(a.caps);
    if i < |a.caps| {
      assert a.caps[i] in a.caps;
      var caps' := a.caps[i := c];
      assert forall j :: 0 <= j <= i ==> caps'[j].op != 0;
    }
  }

  /** One more delegation. */
  lemma FillOnce(k: Kernel, k1: Kernel, w: nat, n: nat, c: Capability)
    requires Calm(k1) && SlotOk(k, w) && Filled(k, k1, w, n) && w != k1.current && c.op != 0 && c in Me(k1).caps && !Me(k1).inReceive
    ensures var e := SysGrant(w, c.op, c.target);
            && Enabled(k1, e) && Step(k1, e).1.Code? && Calm(Step(k1, e).0) && Filled(k, Step(k1, e).0, w, n + 1)
  {
    var a := k1.actors[w];
    AddCapEffect(a, c.op, c.target);
    FilledEntry(a, c);
    var (a', rc) := AddCap(a, c.op, c.target);
    assert HasCap(Me(k1), c.op, c.target);
    assert Step(k1, SysGrant(w, c.op, c.target)) == (SetActor(k1, w, a'), Code(rc));
    forall d: Capability | d.op != 0 && d in k.actors[w].caps
      ensures d in a'.caps
    {
      assert HasCap(a, d.op, d.target);
    }
  }

  lemma FilledUp(k: Kernel, k': Kernel, w: nat)
    requires SlotOk(k, w) && Filled(k, k', w, |k.actors[w].caps|)
    ensures TableFull(k'.actors[w])
  {
  }
}
