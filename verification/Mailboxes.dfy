/**
  Mailboxes over whole runs: for each incarnation of a slot, the messages
  accepted are the messages received followed by those still queued, in order,
  and each was accepted from a sender that held the right to send.
 */
module Mailboxes {
  import opened ActorTable
  import opened Kernel
  import Scheduling

  /** A send succeeds exactly when it is allowed, the receiver lives and has room; a refused send changes nothing. */
  lemma SendExact(k: Kernel, dest: int, mtype: Words.u64, data: Words.u64)
    requires Started(k)
    ensures var (k', rc) := Send(k, dest, mtype, data);
            && (rc == 0 <==> SlotOk(k, dest) && HasCap(Me(k), CAP_SEND, dest)
                             && !k.actors[dest].state.Dead? && k.actors[dest].count < |k.actors[dest].mailbox|)
            && (rc != 0 ==> rc == -1 && k' == k)
            && (rc == 0 ==>
                  && Queue(k'.actors[dest]) == Queue(k.actors[dest]) + [Message(mtype, k.current, data)]
                  && !k'.actors[dest].state.Blocked?)
  {
    if SlotOk(k, dest) && k.actors[dest].count < |k.actors[dest].mailbox| {
      EnqueueAppends(k.actors[dest], Message(mtype, k.current, data));
    }
  }

  // ---- what a step does to one mailbox ------------------------------------------------

  predicate SameBox(a: Actor, b: Actor) {
    a.mailbox == b.mailbox && a.head == b.head && a.count == b.count
  }

  /** The step queues a message for slot s. */
  predicate Accepts(k: Kernel, e: Event, s: int)
    requires Enabled(k, e)
  {
    e.SysSend? && e.dest == s && Step(k, e).1 == Code(0)
  }

  function AcceptedMessage(k: Kernel, e: Event): Message
    requires Enabled(k, e) && e.SysSend?
  {
    Message(e.mtype, k.current, e.data)
  }

  /** The step hands the oldest message to slot s. */
  predicate Takes(k: Kernel, e: Event, s: int)
    requires Enabled(k, e)
  {
    k.current == s && (e.SysReceive? || e.Resume?) && Step(k, e).1.Received?
  }

  /** A new occupant moves into slot s. */
  predicate Restarts(k: Kernel, k': Kernel, s: int)
    requires SlotOk(k, s) && SlotOk(k', s)
  {
    k.actors[s].state.Dead? && !k'.actors[s].state.Dead?
  }

  ghost predicate BoxStep(k: Kernel, e: Event, s: nat)
    requires Enabled(k, e) && SlotOk(k, s)
  {
    var k' := Step(k, e).0;
    && |k'.actors| == |k.actors|
    && (Restarts(k, k', s) ==> k'.actors[s].count == 0 && !Accepts(k, e, s) && !Takes(k, e, s))
    && (!k.actors[s].state.Dead? ==>
          if Accepts(k, e, s) then Queue(k'.actors[s]) == Queue(k.actors[s]) + [AcceptedMessage(k, e)]
          else if Takes(k, e, s) then Queue(k.actors[s]) == [Step(k, e).1.msg] + Queue(k'.actors[s])
          else Queue(k'.actors[s]) == Queue(k.actors[s]))
  }

  lemma SameBoxQueue(a: Actor, b: Actor)
    requires SameBox(a, b) && ActorOk(a)
    ensures ActorOk(b) && Queue(a) == Queue(b)
  {
  }

  /** Rows differ at most in fields other than the mailbox and whether they are dead. */
  ghost predicate BoxesSame(k: Kernel, k': Kernel) {
    && |k'.actors| == |k.actors|
    && forall s :: 0 <= s < |k.actors| ==>
         SameBox(k.actors[s], k'.actors[s]) && (k'.actors[s].state.Dead? || !k.actors[s].state.Dead?)
  }

  lemma AdoptBoxes(k: Kernel, spawner: int, child: int)
    requires WF(k) && SlotOk(k, spawner) && SlotOk(k, child)
    ensures var k' := Adopt(k, spawner, child);
            |k'.actors| == |k.actors|
            && forall s :: 0 <= s < |k.actors| ==> SameBox(k.actors[s], k'.actors[s]) && k'.actors[s].state == k.actors[s].state
  {
  }

  /** A spawn empties the mailbox of the dead slot it takes and touches no other. */
  ghost predicate SpawnBoxes(k: Kernel, k': Kernel) {
    && |k'.actors| == |k.actors|
    && forall s :: 0 <= s < |k.actors| ==>
         (SameBox(k.actors[s], k'.actors[s]) && k'.actors[s].state == k.actors[s].state)
         || (k.actors[s].state.Dead? && k'.actors[s].count == 0)
  }

  lemma SpawnKeepsBoxes(k: Kernel, entry: nat)
    requires WF(k)
    ensures SpawnBoxes(k, Spawn(k, entry).0)
  {
  }

  lemma SpawnProgramKeepsBoxes(k: Kernel, phys: nat, size: nat, entryOffset: nat)
    requires WF(k)
    ensures SpawnBoxes(k, SpawnProgram(k, phys, size, entryOffset).0)
  {
    SpawnKeepsBoxes(k, Paging.PROGRAM_VBASE + entryOffset);
  }

  lemma SpawnChildKeepsBoxes(k: Kernel, entry: nat)
    requires Started(k)
    ensures SpawnBoxes(k, SpawnChild(k, entry).0)
  {
    SpawnKeepsBoxes(k, entry);
    var (k1, child) := Spawn(k, entry);
    if child >= 0 {
      AdoptBoxes(k1, k.current, child);
    }
  }

  lemma SpawnProgramChildKeepsBoxes(k: Kernel, phys: nat, size: nat, entryOffset: nat)
    requires Started(k)
    ensures SpawnBoxes(k, SpawnProgramChild(k, phys, size, entryOffset).0)
  {
    SpawnProgramKeepsBoxes(k, phys, size, entryOffset);
    var (k1, child) := SpawnProgram(k, phys, size, entryOffset);
    if child >= 0 {
      AdoptBoxes(k1, k.current, child);
    }
  }

  lemma LoadProgramKeepsBoxes(k: Kernel, id: int)
    requires Started(k)
    ensures SpawnBoxes(k, LoadProgram(k, id).0)
  {
    var bytes := StoreSpec.Read(k.store, id, Directory.OBJECT_MAX_BYTES);
    if bytes.Some? && ParseProgram(bytes.value).Some? {
      var image := ParseProgram(bytes.value).value;
      var pages := PagesFor(image.codeSize);
      var (mem, phys) := PageFrames.DmaPages(k.mem, pages);
      if phys.Some? {
        SpawnProgramChildKeepsBoxes(k.(mem := mem), phys.value, pages * PageFrames.PAGE_SIZE, image.entryOffset);
      }
    }
  }

  lemma SpawnBoxStep(k: Kernel, e: Event, s: nat)
    requires Enabled(k, e) && SlotOk(k, s) && SpawnBoxes(k, Step(k, e).0)
    requires !e.SysSend? && !e.SysReceive? && !e.Resume?
    ensures BoxStep(k, e, s)
  {
    var k' := Step(k, e).0;
    assert !Accepts(k, e, s) && !Takes(k, e, s);
    if SameBox(k.actors[s], k'.actors[s]) {
      SameBoxQueue(k.actors[s], k'.actors[s]);
    }
  }

  predicate CurrentLives(k: Kernel) {
    SlotOk(k, k.current) ==> !k.actors[k.current].state.Dead?
  }

  lemma ScheduleBoxes(k: Kernel)
    requires WF(k) && !k.halted
    ensures BoxesSame(k, ScheduleNext(k))
  {
    ReapRows(k, 0);
  }

  /** schedule_next after the current actor's state has changed. */
  lemma RescheduleBoxes(k: Kernel, a: Actor)
    requires Started(k) && CurrentLives(k) && ActorOk(a) && SameBox(Me(k), a)
    ensures BoxesSame(k, ScheduleNext(SetMe(k, a)))
  {
    var k0 := SetMe(k, a);
    ScheduleBoxes(k0);
    assert BoxesSame(k, k0);
  }

  lemma DecisionBoxes(k: Kernel, e: Event)
    requires Enabled(k, e) && (e.Start? || e.Timer? || e.SysYield? || e.SysExit?) && CurrentLives(k)
    ensures BoxesSame(k, Step(k, e).0)
  {
    var k' := Step(k, e).0;
    if e.Start? {
      assert k' == ScheduleNext(k);
      ScheduleBoxes(k);
    } else if e.SysExit? {
      assert k' == ScheduleNext(SetMe(k, Me(k).(state := Dead)));
      RescheduleBoxes(k, Me(k).(state := Dead));
    } else {
      assert k' == ScheduleNext(SetMe(k, Me(k).(state := Ready)));
      RescheduleBoxes(k, Me(k).(state := Ready));
    }
  }

  lemma SameBoxesStep(k: Kernel, e: Event, s: nat)
    requires Enabled(k, e) && SlotOk(k, s) && BoxesSame(k, Step(k, e).0)
    requires !e.SysSend? && !e.SysReceive? && !e.Resume?
    ensures BoxStep(k, e, s)
  {
    SameBoxQueue(k.actors[s], Step(k, e).0.actors[s]);
  }

  lemma BlockingBoxes(k: Kernel, e: Event, s: nat)
    requires Enabled(k, e) && SlotOk(k, s) && (e.SysReceive? || e.Resume?) && CurrentLives(k) && Me(k).count == 0
    ensures BoxStep(k, e, s)
  {
    var a := Me(k).(state := Blocked, inReceive := true);
    RescheduleBoxes(k, a);
    var (k', out) := Step(k, e);
    assert k' == ScheduleNext(SetMe(k, a)) && out.Suspended?;
    SameBoxQueue(k.actors[s], k'.actors[s]);
  }

  lemma TakingBoxes(k: Kernel, e: Event, s: nat)
    requires Enabled(k, e) && SlotOk(k, s) && (e.SysReceive? || e.Resume?) && CurrentLives(k) && Me(k).count > 0
    ensures BoxStep(k, e, s)
  {
    var (k', out) := Step(k, e);
    assert k' == SetMe(k, Dequeue(Me(k)).(inReceive := false)) && out == Received(Front(Me(k)));
    DequeueTakesFront(Me(k));
    if s == k.current {
      SameBoxQueue(Dequeue(Me(k)), k'.actors[s]);
    }
  }

  lemma ReceiveBoxes(k: Kernel, e: Event, s: nat)
    requires Enabled(k, e) && SlotOk(k, s) && (e.SysReceive? || e.Resume?) && CurrentLives(k)
    ensures BoxStep(k, e, s)
  {
    if Me(k).count == 0 {
      BlockingBoxes(k, e, s);
    } else {
      TakingBoxes(k, e, s);
    }
  }

  lemma SendBoxes(k: Kernel, e: Event, s: nat)
    requires Enabled(k, e) && SlotOk(k, s) && e.SysSend?
    ensures BoxStep(k, e, s)
  {
    SendExact(k, e.dest, e.mtype, e.data);
  }

  lemma CreateBoxes(k: Kernel, name: Directory.CString)
    requires Started(k)
    ensures BoxesSame(k, CreateByActor(k, name).0)
  {
  }

  lemma QuietBoxes(k: Kernel, e: Event)
    requires Enabled(k, e)
    requires e.BootGrant? || e.BootQuota? || e.BootWindow? || e.SysGrant? || e.SysTerminate?
    ensures BoxesSame(k, Step(k, e).0)
  {
  }

  lemma TableKept(k: Kernel, e: Event)
    requires Enabled(k, e)
    requires e.BootCreate? || e.BootWrite? || e.SysDevice? || IsStoreCall(e)
    ensures Step(k, e).0.actors == k.actors
  {
  }

  lemma SpawnedBoxes(k: Kernel, e: Event)
    requires Enabled(k, e) && (e.BootSpawn? || e.SysSpawn?)
    ensures SpawnBoxes(k, Step(k, e).0)
  {
    if e.BootSpawn? {
      SpawnKeepsBoxes(k, e.entry);
    } else {
      SpawnCallIs(k, e);
      SpawnChildKeepsBoxes(k, e.entry);
    }
  }

  lemma LoadedBoxes(k: Kernel, e: Event)
    requires Enabled(k, e) && e.SysSpawnProgram?
    ensures SpawnBoxes(k, Step(k, e).0)
  {
    LoadCallIs(k, e);
    LoadProgramKeepsBoxes(k, e.id);
  }

  lemma SpawnCallBoxes(k: Kernel, e: Event, s: nat)
    requires Enabled(k, e) && SlotOk(k, s) && (e.BootSpawn? || e.SysSpawn? || e.SysSpawnProgram?)
    ensures BoxStep(k, e, s)
  {
    if e.SysSpawnProgram? {
      LoadedBoxes(k, e);
    } else {
      SpawnedBoxes(k, e);
    }
    SpawnBoxStep(k, e, s);
  }

  lemma StepBoxes(k: Kernel, e: Event, s: nat)
    requires Enabled(k, e) && SlotOk(k, s) && CurrentLives(k)
    ensures BoxStep(k, e, s)
  {
    if e.SysSend? {
      SendBoxes(k, e, s);
    } else if e.SysReceive? || e.Resume? {
      ReceiveBoxes(k, e, s);
    } else if e.Start? || e.Timer? || e.SysYield? || e.SysExit? {
      DecisionBoxes(k, e);
      SameBoxesStep(k, e, s);
    } else if e.BootSpawn? || e.SysSpawn? || e.SysSpawnProgram? {
      SpawnCallBoxes(k, e, s);
    } else if e.SysCreate? {
      CreateBoxes(k, e.name);
      SameBoxesStep(k, e, s);
    } else {
      if e.BootCreate? || e.BootWrite? || e.SysDevice? || IsStoreCall(e) {
        TableKept(k, e);
      } else {
        QuietBoxes(k, e);
      }
      SameBoxesStep(k, e, s);
    }
  }

  // ---- histories ------------------------------------------------------------------------

  /** What one step means for one mailbox. */
  datatype BoxEvent = Nothing | Restart | Accept(m: Message) | Take(m: Message)

  ghost function BoxEventAt(k: Kernel, e: Event, s: nat): BoxEvent
    requires Enabled(k, e) && SlotOk(k, s) && SlotOk(Step(k, e).0, s)
  {
    if Restarts(k, Step(k, e).0, s) then Restart
    else if Accepts(k, e, s) then Accept(AcceptedMessage(k, e))
    else if Takes(k, e, s) then Take(Step(k, e).1.msg)
    else Nothing
  }

  ghost predicate RunHasSlot(ks: seq<Kernel>, s: nat) {
    forall i :: 0 <= i < |ks| ==> WF(ks[i]) && SlotOk(ks[i], s)
  }

  /** The history of slot s in a run. */
  ghost function BoxLog(ks: seq<Kernel>, es: seq<Event>, s: nat): (r: seq<BoxEvent>)
    requires IsRun(ks, es) && RunHasSlot(ks, s)
    ensures |r| == |es|
  {
    seq(|es|, i requires 0 <= i < |es| => BoxEventAt(ks[i], es[i], s))
  }

  /** Messages accepted for the present occupant. */
  function Accepted(log: seq<BoxEvent>): seq<Message> {
    if log == [] then []
    else
      var before, last := log[..|log| - 1], log[|log| - 1];
      match last
      case Restart => []
      case Accept(m) => Accepted(before) + [m]
      case _ => Accepted(before)
  }

  /** Messages the present occupant has received. */
  function Taken(log: seq<BoxEvent>): seq<Message> {
    if log == [] then []
    else
      var before, last := log[..|log| - 1], log[|log| - 1];
      match last
      case Restart => []
      case Take(m) => Taken(before) + [m]
      case _ => Taken(before)
  }

  /** How a queue may change, if its owner lives before and after (or has just moved in). */
  predicate QueueStep(q: seq<Message>, ev: BoxEvent, q': seq<Message>) {
    match ev
    case Nothing => q' == q
    case Restart => q' == []
    case Accept(m) => q' == q + [m]
    case Take(m) => q == [m] + q'
  }

  /** A FIFO that starts empty: accepted is received plus queued. */
  lemma {:induction false} FifoHistory(log: seq<BoxEvent>, qs: seq<seq<Message>>, alive: seq<bool>)
    requires |qs| == |alive| == |log| + 1 && !alive[0] && alive[|log|]
    requires forall i :: 0 <= i < |log| && alive[i + 1] ==> (alive[i] || log[i].Restart?) && QueueStep(qs[i], log[i], qs[i + 1])
    ensures Accepted(log) == Taken(log) + qs[|log|]
  {
    var n := |log| - 1;
    assert alive[n + 1] ==> QueueStep(qs[n], log[n], qs[n + 1]);
    if !log[n].Restart? {
      FifoHistory(log[..n], qs[..n + 1], alive[..n + 1]);
    }
  }

  lemma CurrentAlwaysLives(ks: seq<Kernel>, es: seq<Event>, n: nat)
    requires IsRun(ks, es) && Initial(ks[0]) && n < |es|
    ensures CurrentLives(ks[n])
  {
    Scheduling.InitialSched(ks[0]);
    Scheduling.RunSched(ks, es, n);
    assert Enabled(ks[n], es[n]);
  }

  lemma HistoryStep(ks: seq<Kernel>, es: seq<Event>, s: nat, i: nat)
    requires IsRun(ks, es) && Initial(ks[0]) && i < |es| && RunHasSlot(ks, s) && !ks[i + 1].actors[s].state.Dead?
    ensures var ev := BoxLog(ks, es, s)[i];
            && (!ks[i].actors[s].state.Dead? || ev.Restart?)
            && QueueStep(Queue(ks[i].actors[s]), ev, Queue(ks[i + 1].actors[s]))
  {
    CurrentAlwaysLives(ks, es, i);
    StepBoxes(ks[i], es[i], s);
  }

  lemma AllHaveSlot(ks: seq<Kernel>, es: seq<Event>, s: nat)
    requires IsRun(ks, es) && Initial(ks[0]) && SlotOk(ks[0], s)
    ensures RunHasSlot(ks, s)
  {
    Scheduling.InitialSched(ks[0]);
    forall i | 0 <= i < |ks|
      ensures WF(ks[i]) && SlotOk(ks[i], s)
    {
      Scheduling.RunSched(ks, es, i);
    }
  }

  /**
    For the present occupant of a slot, nothing is lost, duplicated, reordered
    or invented between acceptance and receipt.
   */
  lemma MailboxHistory(ks: seq<Kernel>, es: seq<Event>, s: nat)
    requires IsRun(ks, es) && Initial(ks[0]) && SlotOk(ks[0], s)
    ensures RunHasSlot(ks, s)
    ensures !ks[|es|].actors[s].state.Dead? ==>
              Accepted(BoxLog(ks, es, s)) == Taken(BoxLog(ks, es, s)) + Queue(ks[|es|].actors[s])
  {
    AllHaveSlot(ks, es, s);
    var qs := seq(|ks|, i requires 0 <= i < |ks| => Queue(ks[i].actors[s]));
    var alive := seq(|ks|, i requires 0 <= i < |ks| => !ks[i].actors[s].state.Dead?);
    forall i | 0 <= i < |es| && alive[i + 1]
      ensures (alive[i] || BoxLog(ks, es, s)[i].Restart?) && QueueStep(qs[i], BoxLog(ks, es, s)[i], qs[i + 1])
    {
      HistoryStep(ks, es, s, i);
    }
    if alive[|es|] {
      FifoHistory(BoxLog(ks, es, s), qs, alive);
    }
  }

  /** Step i sent message m to slot s on behalf of the running actor, which held CAP_SEND(s). */
  ghost predicate SentAt(ks: seq<Kernel>, es: seq<Event>, s: nat, i: nat, m: Message)
    requires IsRun(ks, es)
  {
    && i < |es| && es[i].SysSend? && es[i].dest == s
    && m == Message(es[i].mtype, ks[i].current, es[i].data)
    && SlotOk(ks[i], m.sender) && HasCap(ks[i].actors[m.sender], CAP_SEND, s)
  }

  lemma AcceptIsSend(ks: seq<Kernel>, es: seq<Event>, s: nat, i: nat, m: Message)
    requires IsRun(ks, es) && RunHasSlot(ks, s) && i < |es| && BoxLog(ks, es, s)[i] == Accept(m)
    ensures SentAt(ks, es, s, i, m)
  {
    SendExact(ks[i], es[i].dest, es[i].mtype, es[i].data);
  }

  lemma {:induction false} AcceptedWasLogged(log: seq<BoxEvent>, m: Message)
    requires m in Accepted(log)
    ensures exists i :: 0 <= i < |log| && log[i] == Accept(m)
  {
    var n := |log| - 1;
    if log[n] != Accept(m) {
      AcceptedWasLogged(log[..n], m);
      var i :| 0 <= i < n && log[..n][i] == Accept(m);
      assert log[i] == Accept(m);
    }
  }

  /** Every accepted message names its true sender, and that sender was allowed to send it. */
  lemma AcceptedIsAuthorized(ks: seq<Kernel>, es: seq<Event>, s: nat, m: Message)
    requires IsRun(ks, es) && Initial(ks[0]) && SlotOk(ks[0], s)
    ensures RunHasSlot(ks, s)
    ensures m in Accepted(BoxLog(ks, es, s)) ==> exists i: nat :: i < |es| && SentAt(ks, es, s, i, m)
  {
    AllHaveSlot(ks, es, s);
    if m in Accepted(BoxLog(ks, es, s)) {
      AcceptedWasLogged(BoxLog(ks, es, s), m);
      var i :| 0 <= i < |es| && BoxLog(ks, es, s)[i] == Accept(m);
      AcceptIsSend(ks, es, s, i, m);
    }
  }
}
