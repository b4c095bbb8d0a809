/**
  Who comes alive and who dies, and by whose right: spawn, exit and terminate of
  core/actor.c, step by step and over every run.
 */
module Lifecycle {
  import opened ActorTable
  import opened Kernel
  import Authority
  import Mailboxes
  import Runs
  import Scheduling
  import Words

  function Alive(k: Kernel, s: nat): bool
    requires SlotOk(k, s)
  {
    !k.actors[s].state.Dead?
  }

  /** Who may have come alive or died. */
  predicate LifeOk(k: Kernel, e: Event, out: Outcome, k': Kernel)
    requires 0 <= k.current
  {
    && |k'.actors| == |k.actors|
    && (Child(e, out) >= 0 ==> SlotOk(k, Child(e, out)) && !Alive(k, Child(e, out)) && Alive(k', Child(e, out)))
    && (forall s :: 0 <= s < |k.actors| ==>
          && (Alive(k', s) && !Alive(k, s) ==> s == Child(e, out))
          && (Alive(k, s) && !Alive(k', s) ==>
                || (e.SysExit? && s == k.current)
                || (e.SysTerminate? && e.target == s != k.current && Authority.Holds(k, k.current, Capability(CAP_TERMINATE, s)))))
  }

  lemma SpawnedLife(k: Kernel, e: Event, out: Outcome, k': Kernel, child: int)
    requires 0 <= k.current && Scheduling.Spawned(k, k', child) && Child(e, out) == child
    ensures LifeOk(k, e, out, k')
  {
    forall s | 0 <= s < |k.actors|
      ensures s != child ==> (Alive(k', s) <==> Alive(k, s))
    {
      if s != child {
        assert Scheduling.SchedEq(k.actors[s], k'.actors[s]);
      }
    }
  }

  lemma SpawnCallLife(k: Kernel, e: Event)
    requires Enabled(k, e) && 0 <= k.current && e.SysSpawn?
    ensures LifeOk(k, e, Step(k, e).1, Step(k, e).0)
  {
    Scheduling.SpawnChildEffect(k, e.entry);
    var (k', child) := SpawnChild(k, e.entry);
    assert Step(k, e) == (k', Code(child));
    SpawnedLife(k, e, Code(child), k', child);
  }

  lemma LoadCallLife(k: Kernel, e: Event)
    requires Enabled(k, e) && 0 <= k.current && e.SysSpawnProgram?
    ensures LifeOk(k, e, Step(k, e).1, Step(k, e).0)
  {
    if HasCap(Me(k), CAP_READ_OBJECT, e.id) {
      Scheduling.LoadProgramEffect(k, e.id);
      var (k', child) := LoadProgram(k, e.id);
      assert Step(k, e) == (k', Code(child));
      SpawnedLife(k, e, Code(child), k', child);
    } else {
      assert Step(k, e) == (k, Code(-1));
      SameTableLife(k, e, Code(-1), k);
    }
  }

  lemma SameTableLife(k: Kernel, e: Event, out: Outcome, k': Kernel)
    requires 0 <= k.current && k'.actors == k.actors && Child(e, out) == -1
    ensures LifeOk(k, e, out, k')
  {
  }

  lemma CreateLife(k: Kernel, e: Event)
    requires Enabled(k, e) && e.SysCreate?
    ensures LifeOk(k, e, Step(k, e).1, Step(k, e).0)
  {
    Scheduling.CreateSame(k, e.name);
    var k' := Step(k, e).0;
    assert k' == k || Scheduling.SameSched(k, k');
    forall s | 0 <= s < |k.actors|
      ensures Alive(k', s) <==> Alive(k, s)
    {
      assert k' == k || Scheduling.SchedEq(k.actors[s], k'.actors[s]);
    }
  }

  lemma LifeOf(k: Kernel, e: Event)
    requires Scheduling.SchedInv(k) && Enabled(k, e) && 0 <= k.current
    ensures LifeOk(k, e, Step(k, e).1, Step(k, e).0)
  {
    if Scheduling.Decides(k, e) {
      DecisionLife(k, e);
    } else if e.SysSpawn? {
      SpawnCallLife(k, e);
    } else if e.SysSpawnProgram? {
      LoadCallLife(k, e);
    } else if e.SysCreate? {
      CreateLife(k, e);
    } else if e.SysDevice? || IsStoreCall(e) {
      Mailboxes.TableKept(k, e);
      SameTableLife(k, e, Step(k, e).1, Step(k, e).0);
    } else {
      QuietLife(k, e);
    }
  }

  lemma DecisionLife(k: Kernel, e: Event)
    requires Scheduling.SchedInv(k) && Enabled(k, e) && 0 <= k.current && Scheduling.Decides(k, e)
    ensures LifeOk(k, e, Step(k, e).1, Step(k, e).0)
  {
    Scheduling.DecisionEffect(k, e);
    Scheduling.ScheduleNextEffect(Scheduling.AtDecision(k, e));
    ScheduledLife(k, e, Step(k, e).1, Step(k, e).0);
  }

  lemma ScheduledLife(k: Kernel, e: Event, out: Outcome, k': Kernel)
    requires Enabled(k, e) && 0 <= k.current && Mailboxes.CurrentLives(k) && Scheduling.Decides(k, e)
    requires Scheduling.Scheduled(Scheduling.AtDecision(k, e), k')
    ensures LifeOk(k, e, out, k')
  {
    var k0 := Scheduling.AtDecision(k, e);
    forall s | 0 <= s < |k.actors|
      ensures Alive(k', s) <==> Alive(k0, s)
    {
      if k'.halted || s != k'.current {
        assert Scheduling.SchedEq(k0.actors[s], k'.actors[s]);
      }
    }
  }

  lemma MessageLife(k: Kernel, e: Event)
    requires Scheduling.SchedInv(k) && Enabled(k, e) && 0 <= k.current && !Scheduling.Decides(k, e)
    requires e.SysSend? || e.SysReceive? || e.Resume?
    ensures LifeOk(k, e, Step(k, e).1, Step(k, e).0)
  {
  }

  lemma TableLife(k: Kernel, e: Event)
    requires Scheduling.SchedInv(k) && Enabled(k, e) && 0 <= k.current && (e.SysGrant? || e.SysTerminate?)
    ensures LifeOk(k, e, Step(k, e).1, Step(k, e).0)
  {
  }

  lemma QuietLife(k: Kernel, e: Event)
    requires Scheduling.SchedInv(k) && Enabled(k, e) && 0 <= k.current && !Scheduling.Decides(k, e)
    requires e.SysSend? || e.SysReceive? || e.Resume? || e.SysGrant? || e.SysTerminate?
    ensures LifeOk(k, e, Step(k, e).1, Step(k, e).0)
  {
    if e.SysGrant? || e.SysTerminate? {
      TableLife(k, e);
    } else {
      MessageLife(k, e);
    }
  }

  // ---- births ---------------------------------------------------------------------------------

  /** No system call spawns anybody without the right to spawn and quota left. */
  lemma SpawnNeedsRight(k: Kernel, e: Event)
    requires Enabled(k, e) && 0 <= k.current && Child(e, Step(k, e).1) >= 0
    ensures HasCap(Me(k), CAP_SPAWN, 0) && Me(k).spawnCount < Me(k).spawnQuota
  {
    if e.SysSpawn? {
      assert Step(k, e) == Coded(SpawnChild(k, e.entry));
    } else {
      LoadNeedsRight(k, e.id);
    }
  }

  lemma LoadNeedsRight(k: Kernel, id: int)
    requires Started(k) && LoadProgram(k, id).1 >= 0
    ensures HasCap(Me(k), CAP_SPAWN, 0) && Me(k).spawnCount < Me(k).spawnQuota
  {
  }

  /** In every run: once the scheduler has started, whoever comes alive was spawned by an actor with the right and quota left. */
  lemma BirthsAreAuthorized(ks: seq<Kernel>, es: seq<Event>, i: nat, s: nat)
    requires IsRun(ks, es) && Initial(ks[0]) && i < |es| && 0 <= ks[i].current
    requires SlotOk(ks[i], s) && SlotOk(ks[i + 1], s) && ks[i].actors[s].state.Dead? && !ks[i + 1].actors[s].state.Dead?
    ensures es[i].SysSpawn? || es[i].SysSpawnProgram?
    ensures Enabled(ks[i], es[i]) && Step(ks[i], es[i]).1 == Code(s)
    ensures SlotOk(ks[i], ks[i].current)
    ensures var a := ks[i].actors[ks[i].current]; Capability(CAP_SPAWN, 0) in a.caps && a.spawnCount < a.spawnQuota
  {
    Scheduling.InitialSched(ks[0]);
    Scheduling.RunSched(ks, es, i);
    BirthIsChild(ks[i], es[i], s);
    SpawnNeedsRight(ks[i], es[i]);
  }

  lemma BirthIsChild(k: Kernel, e: Event, s: nat)
    requires Scheduling.SchedInv(k) && Enabled(k, e) && 0 <= k.current && SlotOk(k, s) && !Alive(k, s)
    requires SlotOk(Step(k, e).0, s) && Alive(Step(k, e).0, s)
    ensures (e.SysSpawn? || e.SysSpawnProgram?) && Step(k, e).1 == Code(s)
  {
    LifeOf(k, e);
    assert s == Child(e, Step(k, e).1);
  }

  // ---- deaths -----------------------------------------------------------------------------------

  /** actor_terminate, exactly: when it succeeds, and everything it changes. */
  lemma TerminateExact(k: Kernel, t: int)
    requires Enabled(k, SysTerminate(t)) && 0 <= k.current
    ensures var (k', out) := Step(k, SysTerminate(t));
            && (out == Code(0) <==> SlotOk(k, t) && t != k.current && Capability(CAP_TERMINATE, t) in k.actors[k.current].caps)
            && (out != Code(0) ==> out == Code(-1) && k' == k)
            && (out == Code(0) ==> k' == k.(actors := k.actors[t := k.actors[t].(state := Dead)]))
  {
  }

  /** actor_exit: the caller's row is DEAD and otherwise as it was, its stack page included. */
  lemma ExitExact(k: Kernel)
    requires Scheduling.SchedInv(k) && Enabled(k, SysExit) && 0 <= k.current
    ensures var k' := Step(k, SysExit).0; SlotOk(k', k.current) && k'.actors[k.current] == Me(k).(state := Dead)
  {
    var k0 := SetMe(k, Me(k).(state := Dead));
    KeepsCurrentRow(k0, 0);
    assert Step(k, SysExit) == (ScheduleNext(k0), Suspended);
    ReapRows(k0, 0);
  }

  lemma {:induction false} KeepsCurrentRow(k: Kernel, i: nat)
    requires WF(k) && SlotOk(k, k.current) && i <= |k.actors|
    ensures ReapFrom(k, i).actors[k.current] == k.actors[k.current]
    decreases |k.actors| - i
  {
    if i < |k.actors| {
      KeepsCurrentRow(ReapSlot(k, i), i + 1);
    }
  }

  /** Nobody dies but by their own exit or a termination that succeeds, and both do kill. */
  lemma DeathsExact(k: Kernel, e: Event, s: nat)
    requires Scheduling.SchedInv(k) && Enabled(k, e) && 0 <= k.current && SlotOk(k, s) && Alive(k, s)
    ensures var (k', out) := Step(k, e);
            && SlotOk(k', s)
            && (!Alive(k', s) <==> (e.SysExit? && s == k.current) || (e == SysTerminate(s) && out == Code(0)))
  {
    LifeOf(k, e);
    if e.SysExit? {
      ExitExact(k);
    } else if e.SysTerminate? {
      TerminateExact(k, e.target);
    }
  }

  // ---- the dead stay out -------------------------------------------------------------------------

  ghost predicate Out(k: Kernel, t: nat) {
    SlotOk(k, t) && k.actors[t].state.Dead? && k.current != t
  }

  /** schedule_next leaves nobody dead on the processor, unless it halts where it is. */
  lemma ScheduleLeaves(k: Kernel, t: nat)
    requires Scheduling.Between(k) && Out(k, t)
    ensures Out(ScheduleNext(k), t)
  {
    Scheduling.ScheduleNextEffect(k);
    var k' := ScheduleNext(k);
    assert k'.halted ==> k'.current == k.current;
    if k'.halted || k'.current != t {
      assert Scheduling.SchedEq(k.actors[t], k'.actors[t]);
    }
  }

  lemma DecisionLeaves(k: Kernel, e: Event, t: nat)
    requires Scheduling.SchedInv(k) && Enabled(k, e) && Scheduling.Decides(k, e) && Out(k, t)
    ensures Out(Step(k, e).0, t)
  {
    Scheduling.DecisionEffect(k, e);
    ScheduleLeaves(Scheduling.AtDecision(k, e), t);
  }

  lemma OutStep(k: Kernel, e: Event, t: nat)
    requires Scheduling.SchedInv(k) && Enabled(k, e) && 0 <= k.current && Out(k, t) && Child(e, Step(k, e).1) != t
    ensures Out(Step(k, e).0, t)
  {
    if Scheduling.Decides(k, e) {
      DecisionLeaves(k, e, t);
    } else {
      LifeOf(k, e);
      Scheduling.OtherEffect(k, e);
      OutKept(k, e, Step(k, e).1, Step(k, e).0, t);
    }
  }

  lemma OutKept(k: Kernel, e: Event, out: Outcome, k': Kernel, t: nat)
    requires 0 <= k.current && LifeOk(k, e, out, k') && Scheduling.NoDecision(k, k') && Out(k, t) && Child(e, out) != t
    ensures Out(k', t)
  {
    assert !Alive(k', t);
  }

  /** No step from m to n spawns into slot t. */
  ghost predicate NotReused(ks: seq<Kernel>, es: seq<Event>, m: nat, n: nat, t: nat)
    requires n < |ks| && n <= |es|
  {
    forall j {:trigger es[j]} :: m <= j < n ==> Enabled(ks[j], es[j]) && Child(es[j], Step(ks[j], es[j]).1) != t
  }

  lemma OutRunStep(ks: seq<Kernel>, es: seq<Event>, i: nat, t: nat)
    requires IsRun(ks, es) && Initial(ks[0]) && i < |es| && 0 <= ks[i].current && Out(ks[i], t)
    requires Enabled(ks[i], es[i]) && Child(es[i], Step(ks[i], es[i]).1) != t
    ensures 0 <= ks[i + 1].current && Out(ks[i + 1], t)
  {
    Scheduling.InitialSched(ks[0]);
    Scheduling.RunSched(ks, es, i);
    OutStep(ks[i], es[i], t);
    Scheduling.StepStaysStarted(ks[i], es[i]);
  }

  /** Whoever is dead and off the processor stays so until a spawn returns the slot. */
  lemma StaysOut(ks: seq<Kernel>, es: seq<Event>, m: nat, n: nat, t: nat)
    requires IsRun(ks, es) && Initial(ks[0]) && m <= n < |ks| && 0 <= ks[m].current && Out(ks[m], t) && NotReused(ks, es, m, n, t)
    ensures 0 <= ks[n].current && Out(ks[n], t)
  {
    var gone := (k: Kernel) => 0 <= k.current && Out(k, t);
    forall i | m <= i < n && gone(ks[i])
      ensures gone(ks[i + 1])
    {
      var e := es[i];
      OutRunStep(ks, es, i, t);
    }
    Runs.Throughout(gone, ks[..n + 1], m, n);
  }

  lemma DeadGetNoMail(k: Kernel, t: nat, mtype: Words.u64, data: Words.u64)
    requires Enabled(k, SysSend(t, mtype, data)) && 0 <= k.current && SlotOk(k, t) && k.actors[t].state.Dead?
    ensures Step(k, SysSend(t, mtype, data)) == (k, Code(-1))
  {
  }

  /**
    In every run: from a successful termination until a spawn returns the slot
    again, the slot is DEAD, never current, and no message to it is accepted.
   */
  lemma TerminatedStaysOut(ks: seq<Kernel>, es: seq<Event>, i: nat, n: nat, t: nat)
    requires IsRun(ks, es) && Initial(ks[0]) && i < n < |ks| && 0 <= ks[i].current
    requires es[i] == SysTerminate(t) && Enabled(ks[i], es[i]) && Step(ks[i], es[i]).1 == Code(0)
    requires NotReused(ks, es, i + 1, n, t)
    ensures SlotOk(ks[n], t) && ks[n].actors[t].state.Dead? && ks[n].current != t
    ensures n < |es| && es[n].SysSend? && es[n].dest == t ==> Enabled(ks[n], es[n]) && Step(ks[n], es[n]) == (ks[n], Code(-1))
  {
    TerminateExact(ks[i], t);
    StaysOut(ks, es, i + 1, n, t);
    if n < |es| && es[n].SysSend? && es[n].dest == t {
      DeadGetNoMail(ks[n], t, es[n].mtype, es[n].data);
    }
  }
}
