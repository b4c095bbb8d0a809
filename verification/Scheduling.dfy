/**
  The scheduler over whole runs: exactly the current actor runs, no wakeup is
  lost, the kernel halts only when everybody waits for a message that cannot
  come, and a ready actor waits for fewer than MAX_ACTORS scheduling decisions.
 */
module Scheduling {
  import opened ActorTable
  import opened Kernel
  import Runs

  // ---- what the round-robin scan finds ---------------------------------------------

  /** How many slots lie strictly between `from` and `to`, going round. */
  function Distance(n: nat, from: nat, to: nat): nat
    requires from < n && to < n
  {
    if to > from then to - from - 1 else to + n - from - 1
  }

  /** No runnable slot is closer to `start` than the one the scan picks; -1 means there is none. */
  lemma {:induction false} PickNearest(actors: seq<Actor>, start: nat, i: nat)
    requires start < |actors| && 1 <= i <= |actors| + 1
    ensures var r := PickFrom(actors, start, i);
            forall j :: 0 <= j < |actors| && Runnable(actors[j]) && Distance(|actors|, start, j) >= i - 1 ==>
              r != -1 && Distance(|actors|, start, r) <= Distance(|actors|, start, j)
    decreases |actors| + 1 - i
  {
    if i <= |actors| {
      var idx := Wrap(start + i, |actors|);
      assert Distance(|actors|, start, idx) == i - 1;
      if !Runnable(actors[idx]) {
        PickNearest(actors, start, i + 1);
      }
    }
  }

  /** The scan misses nobody. */
  lemma PickFindsRunnable(actors: seq<Actor>, start: nat)
    requires start < |actors|
    ensures PickFrom(actors, start, 1) == -1 <==> forall j :: 0 <= j < |actors| ==> !Runnable(actors[j])
  {
    PickNearest(actors, start, 1);
  }

  // ---- the invariant --------------------------------------------------------------

  /** Mailbox and wait state agree. */
  predicate WaitOk(a: Actor) {
    && (a.state.Blocked? ==> a.count == 0 && a.inReceive)
    && (!a.state.Dead? && a.inReceive ==> a.state.Blocked? || a.count > 0)
  }

  /** Exactly the current actor is running, and whoever is blocked has an empty mailbox. */
  ghost predicate SchedInv(k: Kernel) {
    && WF(k)
    && (forall i :: 0 <= i < |k.actors| ==> WaitOk(k.actors[i]))
    && (forall i :: 0 <= i < |k.actors| ==> (k.actors[i].state.Running? <==> i == k.current && !k.halted))
    && (k.halted ==> forall i :: 0 <= i < |k.actors| ==> !Runnable(k.actors[i]))
  }

  /** The state schedule_next is entered in: nobody is marked running. */
  ghost predicate Between(k: Kernel) {
    && WF(k) && !k.halted
    && (forall i :: 0 <= i < |k.actors| ==> WaitOk(k.actors[i]) && !k.actors[i].state.Running?)
  }

  /** Two rows agree as far as scheduling goes. */
  predicate SchedEq(a: Actor, b: Actor) {
    a.state == b.state && (!a.state.Dead? ==> a.count == b.count && a.inReceive == b.inReceive)
  }

  ghost predicate SameSched(k: Kernel, k': Kernel) {
    && |k'.actors| == |k.actors| && k'.current == k.current && k'.halted == k.halted
    && forall i :: 0 <= i < |k.actors| ==> SchedEq(k.actors[i], k'.actors[i])
  }

  ghost predicate NobodyRunnable(k: Kernel) {
    forall i :: 0 <= i < |k.actors| ==> !Runnable(k.actors[i])
  }

  /** What schedule_next's outcome has to do with the table it was called on. */
  ghost predicate Scheduled(k: Kernel, k': Kernel) {
    && |k'.actors| == |k.actors|
    && (k'.halted <==> NobodyRunnable(k))
    && (!k'.halted ==> SlotOk(k, k'.current) && Runnable(k.actors[k'.current])
                       && k'.actors[k'.current] == k.actors[k'.current].(state := Running, stackPage := k'.actors[k'.current].stackPage))
    && (forall i :: 0 <= i < |k.actors| && (k'.halted || i != k'.current) ==> SchedEq(k.actors[i], k'.actors[i]))
  }

  lemma ScheduleNextEffect(k: Kernel)
    requires Between(k)
    ensures Scheduled(k, ScheduleNext(k))
  {
    ReapRows(k, 0);
    var k1 := ReapFrom(k, 0);
    PickFindsRunnable(k1.actors, if k.current < 0 then 0 else k.current);
    assert NobodyRunnable(k) <==> NobodyRunnable(k1) by {
      assert forall i :: 0 <= i < |k.actors| ==> (Runnable(k.actors[i]) <==> Runnable(k1.actors[i]));
    }
  }

  lemma ScheduledSched(k: Kernel, k': Kernel)
    requires Between(k) && WF(k') && Scheduled(k, k')
    ensures SchedInv(k')
  {
    forall i | 0 <= i < |k'.actors|
      ensures WaitOk(k'.actors[i]) && (k'.actors[i].state.Running? <==> i == k'.current && !k'.halted)
      ensures k'.halted ==> !Runnable(k'.actors[i])
    {
      assert WaitOk(k.actors[i]);
      if k'.halted || i != k'.current {
        assert SchedEq(k.actors[i], k'.actors[i]);
      }
    }
  }

  // ---- every step keeps it ----------------------------------------------------------

  lemma SameSchedKeeps(k: Kernel, k': Kernel)
    requires SchedInv(k) && SameSched(k, k') && WF(k')
    ensures SchedInv(k')
  {
    forall i | 0 <= i < |k'.actors|
      ensures WaitOk(k'.actors[i]) && (k'.actors[i].state.Running? <==> i == k'.current && !k'.halted)
      ensures k'.halted ==> !Runnable(k'.actors[i])
    {
      assert SchedEq(k.actors[i], k'.actors[i]);
    }
  }

  lemma AdoptSame(k: Kernel, spawner: int, child: int)
    requires WF(k) && SlotOk(k, spawner) && SlotOk(k, child)
    ensures SameSched(k, Adopt(k, spawner, child))
  {
  }

  lemma CreateSame(k: Kernel, name: Directory.CString)
    requires Started(k)
    ensures SameSched(k, CreateByActor(k, name).0)
  {
  }

  /** A new actor starts ready, outside receive, in a slot that was dead; every other row is as before. */
  ghost predicate Spawned(k: Kernel, k': Kernel, slot: int) {
    && |k'.actors| == |k.actors| && k'.current == k.current && k'.halted == k.halted
    && (forall i :: 0 <= i < |k.actors| && i != slot ==> SchedEq(k.actors[i], k'.actors[i]))
    && (slot == -1 || (SlotOk(k, slot) && k.actors[slot].state.Dead?
                       && k'.actors[slot].state.Ready? && k'.actors[slot].count == 0 && !k'.actors[slot].inReceive))
  }

  lemma SpawnEffect(k: Kernel, entry: nat)
    requires WF(k)
    ensures Spawned(k, Spawn(k, entry).0, Spawn(k, entry).1)
  {
  }

  lemma SpawnProgramEffect(k: Kernel, phys: nat, size: nat, entryOffset: nat)
    requires WF(k)
    ensures var (k', slot) := SpawnProgram(k, phys, size, entryOffset); Spawned(k, k', slot)
  {
    SpawnEffect(k, Paging.PROGRAM_VBASE + entryOffset);
  }

  lemma AdoptKeepsSpawned(k: Kernel, k1: Kernel, spawner: int, child: int)
    requires WF(k1) && Spawned(k, k1, child) && SlotOk(k1, spawner) && SlotOk(k1, child)
    ensures Spawned(k, Adopt(k1, spawner, child), child)
  {
    AdoptSame(k1, spawner, child);
    var k' := Adopt(k1, spawner, child);
    forall i | 0 <= i < |k.actors|
      ensures i != child ==> SchedEq(k.actors[i], k'.actors[i])
      ensures k'.actors[child].state.Ready? && k'.actors[child].count == 0 && !k'.actors[child].inReceive
    {
      assert SchedEq(k1.actors[i], k'.actors[i]) && SchedEq(k1.actors[child], k'.actors[child]);
    }
  }

  lemma SpawnChildEffect(k: Kernel, entry: nat)
    requires Started(k)
    ensures var (k', slot) := SpawnChild(k, entry); Spawned(k, k', slot)
  {
    if MaySpawn(k) {
      SpawnEffect(k, entry);
      var (k1, child) := Spawn(k, entry);
      if child >= 0 {
        AdoptKeepsSpawned(k, k1, k.current, child);
      }
    }
  }

  lemma SpawnProgramChildEffect(k: Kernel, phys: nat, size: nat, entryOffset: nat)
    requires Started(k)
    ensures var (k', slot) := SpawnProgramChild(k, phys, size, entryOffset); Spawned(k, k', slot)
  {
    if MaySpawn(k) {
      SpawnProgramEffect(k, phys, size, entryOffset);
      var (k1, child) := SpawnProgram(k, phys, size, entryOffset);
      if child >= 0 {
        AdoptKeepsSpawned(k, k1, k.current, child);
      }
    }
  }

  lemma LoadProgramEffect(k: Kernel, id: int)
    requires Started(k)
    ensures var (k', slot) := LoadProgram(k, id); Spawned(k, k', slot)
  {
    var bytes := StoreSpec.Read(k.store, id, Directory.OBJECT_MAX_BYTES);
    if bytes.Some? && ParseProgram(bytes.value).Some? {
      var image := ParseProgram(bytes.value).value;
      var pages := PagesFor(image.codeSize);
      var (mem, phys) := PageFrames.DmaPages(k.mem, pages);
      if phys.Some? {
        SpawnProgramChildEffect(k.(mem := mem), phys.value, pages * PageFrames.PAGE_SIZE, image.entryOffset);
      }
    }
  }

  lemma SpawnedKeeps(k: Kernel, k': Kernel, slot: int)
    requires SchedInv(k) && !k.halted && Spawned(k, k', slot) && WF(k')
    ensures SchedInv(k')
  {
    forall i | 0 <= i < |k'.actors|
      ensures WaitOk(k'.actors[i]) && (k'.actors[i].state.Running? <==> i == k'.current && !k'.halted)
    {
      if i != slot {
        assert SchedEq(k.actors[i], k'.actors[i]);
      }
    }
  }

  /** Does this event end in schedule_next? */
  predicate Decides(k: Kernel, e: Event)
    requires Enabled(k, e)
  {
    e.Start? || e.Timer? || e.SysYield? || e.SysExit? || ((e.SysReceive? || e.Resume?) && Me(k).count == 0)
  }

  /** The table as schedule_next finds it. */
  function AtDecision(k: Kernel, e: Event): (r: Kernel)
    requires Enabled(k, e) && Decides(k, e)
    ensures WF(r) && !r.halted && r.current == k.current && |r.actors| == |k.actors|
  {
    match e
    case Start => k
    case Timer => SetMe(k, Me(k).(state := Ready))
    case SysYield => SetMe(k, Me(k).(state := Ready))
    case SysExit => SetMe(k, Me(k).(state := Dead))
    case SysReceive => SetMe(k, Me(k).(state := Blocked, inReceive := true))
    case Resume => SetMe(k, Me(k).(state := Blocked, inReceive := true))
  }

  lemma DecisionIsSchedule(k: Kernel, e: Event)
    requires Enabled(k, e) && Decides(k, e)
    ensures Step(k, e).0 == ScheduleNext(AtDecision(k, e))
  {
  }

  lemma DecisionBetween(k: Kernel, e: Event)
    requires SchedInv(k) && Enabled(k, e) && Decides(k, e)
    ensures Between(AtDecision(k, e))
  {
  }

  lemma DecisionEffect(k: Kernel, e: Event)
    requires SchedInv(k) && Enabled(k, e) && Decides(k, e)
    ensures Step(k, e).0 == ScheduleNext(AtDecision(k, e))
    ensures Between(AtDecision(k, e))
  {
    DecisionIsSchedule(k, e);
    DecisionBetween(k, e);
  }

  /** What any other step can do to a row: start it, wake it or kill it, but never run it. */
  predicate RowStep(k: Kernel, k': Kernel, i: int)
    requires SlotOk(k, i) && SlotOk(k', i)
  {
    var a, a' := k.actors[i], k'.actors[i];
    || a'.state == a.state
    || (a.state.Dead? && a'.state.Ready?)
    || (a.state.Blocked? && a'.state.Ready?)
    || (i != k.current && a'.state.Dead?)
  }

  /** The effect of a step that is no scheduling decision. */
  ghost predicate NoDecision(k: Kernel, k': Kernel) {
    && SchedInv(k') && |k'.actors| == |k.actors| && k'.current == k.current && !k'.halted
    && forall i :: 0 <= i < |k.actors| ==> RowStep(k, k', i)
  }

  lemma SameNoDecision(k: Kernel, k': Kernel)
    requires SchedInv(k) && !k.halted && SameSched(k, k') && WF(k')
    ensures NoDecision(k, k')
  {
    SameSchedKeeps(k, k');
    forall i | 0 <= i < |k.actors|
      ensures RowStep(k, k', i)
    {
      assert SchedEq(k.actors[i], k'.actors[i]);
    }
  }

  lemma SpawnedNoDecision(k: Kernel, k': Kernel, slot: int)
    requires SchedInv(k) && !k.halted && Spawned(k, k', slot) && WF(k')
    ensures NoDecision(k, k')
  {
    SpawnedKeeps(k, k', slot);
    forall i | 0 <= i < |k.actors|
      ensures RowStep(k, k', i)
    {
      if i != slot {
        assert SchedEq(k.actors[i], k'.actors[i]);
      }
    }
  }

  lemma SpawnCallEffect(k: Kernel, e: Event)
    requires SchedInv(k) && Enabled(k, e) && e.SysSpawn?
    ensures NoDecision(k, Step(k, e).0)
  {
    SpawnChildEffect(k, e.entry);
    var (k', slot) := SpawnChild(k, e.entry);
    assert Step(k, e).0 == k';
    SpawnedNoDecision(k, k', slot);
  }

  lemma LoadCallEffect(k: Kernel, e: Event)
    requires SchedInv(k) && Enabled(k, e) && e.SysSpawnProgram?
    ensures NoDecision(k, Step(k, e).0)
  {
    if HasCap(Me(k), CAP_READ_OBJECT, e.id) {
      LoadProgramEffect(k, e.id);
      var (k', slot) := LoadProgram(k, e.id);
      assert Step(k, e).0 == k';
      SpawnedNoDecision(k, k', slot);
    } else {
      assert Step(k, e).0 == k;
      SameNoDecision(k, k);
    }
  }

  lemma CreateCallEffect(k: Kernel, e: Event)
    requires SchedInv(k) && Enabled(k, e) && e.SysCreate?
    ensures NoDecision(k, Step(k, e).0)
  {
    CreateSame(k, e.name);
    SameNoDecision(k, Step(k, e).0);
  }

  lemma StoreCallEffect(k: Kernel, e: Event)
    requires SchedInv(k) && Enabled(k, e) && IsStoreCall(e)
    ensures NoDecision(k, Step(k, e).0)
  {
    assert Step(k, e) == StoreStep(k, e);
    SameNoDecision(k, Step(k, e).0);
  }

  lemma TableCallEffect(k: Kernel, e: Event)
    requires SchedInv(k) && Enabled(k, e) && (e.SysGrant? || e.SysDevice?)
    ensures NoDecision(k, Step(k, e).0)
  {
    SameNoDecision(k, Step(k, e).0);
  }

  lemma OtherEffect(k: Kernel, e: Event)
    requires SchedInv(k) && Enabled(k, e) && !Decides(k, e)
    ensures NoDecision(k, Step(k, e).0)
  {
    if IsBoot(e) {
      BootEffect(k, e);
    } else if e.SysSpawn? {
      SpawnCallEffect(k, e);
    } else if e.SysSpawnProgram? {
      LoadCallEffect(k, e);
    } else if e.SysCreate? {
      CreateCallEffect(k, e);
    } else if IsStoreCall(e) {
      StoreCallEffect(k, e);
    } else if e.SysGrant? || e.SysDevice? {
      TableCallEffect(k, e);
    } else {
      MessageEffect(k, e);
    }
  }

  lemma BootEffect(k: Kernel, e: Event)
    requires SchedInv(k) && Enabled(k, e) && IsBoot(e) && !e.Start?
    ensures NoDecision(k, Step(k, e).0)
  {
    var k' := Step(k, e).0;
    if e.BootSpawn? {
      SpawnEffect(k, e.entry);
      SpawnedKeeps(k, k', Spawn(k, e.entry).1);
    } else {
      SameSchedKeeps(k, k');
    }
  }

  lemma SendEffect(k: Kernel, e: Event)
    requires SchedInv(k) && Enabled(k, e) && e.SysSend?
    ensures NoDecision(k, Step(k, e).0)
  {
  }

  lemma TakeEffect(k: Kernel, e: Event)
    requires SchedInv(k) && Enabled(k, e) && !Decides(k, e) && (e.SysReceive? || e.Resume?)
    ensures NoDecision(k, Step(k, e).0)
  {
  }

  lemma TerminateEffect(k: Kernel, e: Event)
    requires SchedInv(k) && Enabled(k, e) && e.SysTerminate?
    ensures NoDecision(k, Step(k, e).0)
  {
  }

  lemma MessageEffect(k: Kernel, e: Event)
    requires SchedInv(k) && Enabled(k, e) && !Decides(k, e)
    requires e.SysSend? || e.SysReceive? || e.Resume? || e.SysTerminate?
    ensures NoDecision(k, Step(k, e).0)
  {
    if e.SysSend? {
      SendEffect(k, e);
    } else if e.SysTerminate? {
      TerminateEffect(k, e);
    } else {
      TakeEffect(k, e);
    }
  }

  lemma StepKeepsSched(k: Kernel, e: Event)
    requires SchedInv(k) && Enabled(k, e)
    ensures SchedInv(Step(k, e).0) && |Step(k, e).0.actors| == |k.actors|
  {
    if Decides(k, e) {
      DecisionEffect(k, e);
      ScheduleNextEffect(AtDecision(k, e));
      ScheduledSched(AtDecision(k, e), Step(k, e).0);
    } else {
      OtherEffect(k, e);
    }
  }

  // ---- theorems about every run -------------------------------------------------------

  lemma SchedRunStep(ks: seq<Kernel>, es: seq<Event>, i: nat)
    requires IsRun(ks, es) && i < |es| && SchedInv(ks[i])
    ensures SchedInv(ks[i + 1]) && |ks[i + 1].actors| == |ks[i].actors|
    ensures 0 <= ks[i].current ==> 0 <= ks[i + 1].current
  {
    StepKeepsSched(ks[i], es[i]);
    if 0 <= ks[i].current {
      StepStaysStarted(ks[i], es[i]);
    }
  }

  lemma {:induction false} RunSched(ks: seq<Kernel>, es: seq<Event>, i: nat)
    requires IsRun(ks, es) && SchedInv(ks[0]) && i < |ks|
    ensures SchedInv(ks[i]) && |ks[i].actors| == |ks[0].actors|
  {
    if i > 0 {
      RunSched(ks, es, i - 1);
      SchedRunStep(ks, es, i - 1);
    }
  }

  lemma StepStaysStarted(k: Kernel, e: Event)
    requires SchedInv(k) && Enabled(k, e) && 0 <= k.current
    ensures 0 <= Step(k, e).0.current
  {
    if Decides(k, e) {
      DecisionEffect(k, e);
    } else {
      OtherEffect(k, e);
    }
  }

  /** Once the scheduler has started there is always a current actor. */
  lemma {:induction false} RunStaysStarted(ks: seq<Kernel>, es: seq<Event>, m: nat, n: nat)
    requires IsRun(ks, es) && SchedInv(ks[0]) && m <= n < |ks| && 0 <= ks[m].current
    ensures 0 <= ks[n].current
  {
    if n > m {
      RunStaysStarted(ks, es, m, n - 1);
      RunSched(ks, es, n - 1);
      SchedRunStep(ks, es, n - 1);
    }
  }

  lemma InitialSched(k: Kernel)
    requires Initial(k)
    ensures SchedInv(k)
  {
  }

  /** In every reachable state a blocked actor has an empty mailbox and exactly the current one is running. */
  lemma NoLostWakeup(ks: seq<Kernel>, es: seq<Event>, n: nat, i: nat)
    requires IsRun(ks, es) && Initial(ks[0]) && n < |ks| && i < |ks[n].actors|
    ensures ks[n].actors[i].state.Blocked? ==> ks[n].actors[i].count == 0
    ensures ks[n].actors[i].state.Running? <==> i == ks[n].current && !ks[n].halted
  {
    InitialSched(ks[0]);
    RunSched(ks, es, n);
    assert WaitOk(ks[n].actors[i]);
  }

  /** An actor resumed inside receive always finds a message: the wait loop's body runs at most once. */
  lemma ResumeFindsMessage(ks: seq<Kernel>, es: seq<Event>, n: nat)
    requires IsRun(ks, es) && Initial(ks[0]) && n < |es| && es[n].Resume?
    ensures Step(ks[n], es[n]).1.Received?
  {
    InitialSched(ks[0]);
    RunSched(ks, es, n);
    assert es[n].Resume? && WaitOk(Me(ks[n]));
  }

  /** Dead, or waiting for a message with none queued. */
  predicate Stuck(a: Actor) {
    a.state.Dead? || (a.state.Blocked? && a.count == 0)
  }

  /** A halted kernel has only dead actors and actors blocked on an empty mailbox. */
  lemma HaltMeansStuck(ks: seq<Kernel>, es: seq<Event>, n: nat)
    requires IsRun(ks, es) && Initial(ks[0]) && n < |ks| && ks[n].halted
    ensures forall a :: a in ks[n].actors ==> Stuck(a)
  {
    InitialSched(ks[0]);
    RunSched(ks, es, n);
    forall a | a in ks[n].actors
      ensures Stuck(a)
    {
      assert WaitOk(a) && !Runnable(a);
    }
  }

  /** A step halts the kernel exactly when it is a scheduling decision that finds nobody runnable. */
  lemma HaltIsExact(ks: seq<Kernel>, es: seq<Event>, n: nat)
    requires IsRun(ks, es) && Initial(ks[0]) && n < |es|
    ensures Step(ks[n], es[n]).0.halted <==>
              Decides(ks[n], es[n]) && NobodyRunnable(AtDecision(ks[n], es[n]))
  {
    InitialSched(ks[0]);
    RunSched(ks, es, n);
    if Decides(ks[n], es[n]) {
      DecisionEffect(ks[n], es[n]);
      ScheduleNextEffect(AtDecision(ks[n], es[n]));
    } else {
      OtherEffect(ks[n], es[n]);
    }
  }

  // ---- bounded waiting ------------------------------------------------------------------

  ghost predicate IsReady(k: Kernel, a: nat) {
    a < |k.actors| && k.actors[a].state.Ready?
  }

  /** Whom schedule_next picks: nobody runnable is nearer. */
  lemma PickApproaches(k: Kernel, a: nat)
    requires Between(k) && 0 <= k.current && a < |k.actors| && Runnable(k.actors[a])
    ensures var k' := ScheduleNext(k);
            && Scheduled(k, k') && !k'.halted && SlotOk(k', k'.current)
            && Distance(|k.actors|, k.current, k'.current) <= Distance(|k.actors|, k.current, a)
  {
    ScheduleNextEffect(k);
    ReapRows(k, 0);
    var k1 := ReapFrom(k, 0);
    assert Runnable(k1.actors[a]);
    PickNearest(k1.actors, k.current, 1);
    assert !NobodyRunnable(k);
    assert ScheduleNext(k).current == PickFrom(k1.actors, k.current, 1);
  }

  /** A decision that does not pick a ready actor moves strictly closer to it. */
  lemma DecisionApproaches(k: Kernel, e: Event, a: nat)
    requires SchedInv(k) && Enabled(k, e) && Decides(k, e) && 0 <= k.current && IsReady(k, a)
    ensures var k' := Step(k, e).0;
            && !k'.halted && 0 <= k'.current
            && (k'.current == a || (IsReady(k', a)
                && Distance(|k.actors|, k'.current, a) < Distance(|k.actors|, k.current, a)))
  {
    var k0 := AtDecision(k, e);
    DecisionEffect(k, e);
    assert k0.actors[a].state.Ready?;
    PickApproaches(k0, a);
    var k' := ScheduleNext(k0);
    assert k'.current != a ==> SchedEq(k0.actors[a], k'.actors[a]);
  }

  lemma ReadyStep(k: Kernel, e: Event, a: nat)
    requires SchedInv(k) && Enabled(k, e) && 0 <= k.current && IsReady(k, a)
    ensures var k' := Step(k, e).0;
            && 0 <= k'.current && a < |k'.actors|
            && (k'.actors[a].state.Running? || k'.actors[a].state.Dead? || IsReady(k', a))
            && (IsReady(k', a) ==>
                  if Decides(k, e) then Distance(|k.actors|, k'.current, a) < Distance(|k.actors|, k.current, a)
                  else k'.current == k.current)
  {
    StepKeepsSched(k, e);
    if Decides(k, e) {
      DecisionApproaches(k, e, a);
    } else {
      OtherEffect(k, e);
      assert RowStep(k, Step(k, e).0, a);
    }
  }

  ghost predicate HasRunOrDied(k: Kernel, a: nat) {
    a < |k.actors| && (k.actors[a].state.Running? || k.actors[a].state.Dead?)
  }

  /** Which events of a run were scheduling decisions. */
  ghost function DecisionFlags(ks: seq<Kernel>, es: seq<Event>): (r: seq<bool>)
    requires IsRun(ks, es)
    ensures |r| == |es|
  {
    seq(|es|, i requires 0 <= i < |es| => Decides(ks[i], es[i]))
  }

  /** Something that drops with every flag and never grows bounds the number of flags. */
  lemma {:induction false} Telescope(flags: seq<bool>, d: seq<nat>)
    requires |d| == |flags| + 1
    requires forall i :: 0 <= i < |flags| ==> if flags[i] then d[i + 1] < d[i] else d[i + 1] == d[i]
    ensures Runs.Count(flags) + d[|flags|] <= d[0]
  {
    if flags != [] {
      var n := |flags| - 1;
      Telescope(flags[..n], d[..n + 1]);
      assert flags[n] ==> d[n + 1] < d[n];
    }
  }

  ghost predicate StillWaiting(k: Kernel, n: nat, a: nat) {
    SchedInv(k) && |k.actors| == n && 0 <= k.current && IsReady(k, a)
  }

  lemma WaitingStep(ks: seq<Kernel>, es: seq<Event>, a: nat, i: nat, n: nat)
    requires IsRun(ks, es) && i < |es| && StillWaiting(ks[i], n, a) && !HasRunOrDied(ks[i + 1], a)
    ensures StillWaiting(ks[i + 1], n, a)
    ensures if DecisionFlags(ks, es)[i] then Distance(n, ks[i + 1].current, a) < Distance(n, ks[i].current, a)
            else Distance(n, ks[i + 1].current, a) == Distance(n, ks[i].current, a)
  {
    ReadyStep(ks[i], es[i], a);
    StepKeepsSched(ks[i], es[i]);
  }

  lemma {:induction false} StaysWaiting(ks: seq<Kernel>, es: seq<Event>, a: nat, i: nat)
    requires IsRun(ks, es) && StillWaiting(ks[0], |ks[0].actors|, a) && i < |ks|
    requires forall j :: 0 <= j < |ks| ==> !HasRunOrDied(ks[j], a)
    ensures StillWaiting(ks[i], |ks[0].actors|, a)
  {
    if i > 0 {
      StaysWaiting(ks, es, a, i - 1);
      WaitingStep(ks, es, a, i - 1, |ks[0].actors|);
    }
  }

  /** How far the waiting actor is from its turn, state by state. */
  ghost function Distances(ks: seq<Kernel>, n: nat, a: nat): (d: seq<nat>)
    ensures |d| == |ks|
  {
    seq(|ks|, i requires 0 <= i < |ks| => DistanceIn(ks[i], n, a))
  }

  function DistanceIn(k: Kernel, n: nat, a: nat): nat {
    if 0 <= k.current < n && a < n then Distance(n, k.current, a) else 0
  }

  lemma DistanceStep(ks: seq<Kernel>, es: seq<Event>, a: nat, i: nat, n: nat)
    requires IsRun(ks, es) && i < |es| && forall j :: 0 <= j < |ks| ==> StillWaiting(ks[j], n, a) && !HasRunOrDied(ks[j], a)
    ensures var d := Distances(ks, n, a);
            if DecisionFlags(ks, es)[i] then d[i + 1] < d[i] else d[i + 1] == d[i]
  {
    WaitingStep(ks, es, a, i, n);
  }

  lemma WaitingIsBounded(ks: seq<Kernel>, es: seq<Event>, a: nat)
    requires IsRun(ks, es) && StillWaiting(ks[0], |ks[0].actors|, a)
    requires forall j :: 0 <= j < |ks| ==> !HasRunOrDied(ks[j], a)
    ensures Runs.Count(DecisionFlags(ks, es)) <= Distance(|ks[0].actors|, ks[0].current, a)
  {
    var n := |ks[0].actors|;
    forall i | 0 <= i < |ks|
      ensures StillWaiting(ks[i], n, a)
    {
      StaysWaiting(ks, es, a, i);
    }
    var d, flags := Distances(ks, n, a), DecisionFlags(ks, es);
    forall i | 0 <= i < |flags|
      ensures if flags[i] then d[i + 1] < d[i] else d[i + 1] == d[i]
    {
      DistanceStep(ks, es, a, i, n);
    }
    Telescope(flags, d);
  }

  /**
    Bounded waiting: whatever is spawned, woken or killed meanwhile, a ready
    actor runs, or is terminated, within MAX_ACTORS - 1 scheduling decisions.
   */
  lemma BoundedWaiting(ks: seq<Kernel>, es: seq<Event>, a: nat)
    requires IsRun(ks, es) && SchedInv(ks[0]) && 0 <= ks[0].current && IsReady(ks[0], a)
    requires Runs.Count(DecisionFlags(ks, es)) >= |ks[0].actors| - 1
    ensures exists i :: 0 <= i < |ks| && HasRunOrDied(ks[i], a)
  {
    assert a != ks[0].current;
    if forall i :: 0 <= i < |ks| ==> !HasRunOrDied(ks[i], a) {
      WaitingIsBounded(ks, es, a);
    }
  }
}
