/**
  What becomes of a dead actor's stack page: every scheduling decision gives the
  pages of the dead back to the allocator, all but that of the actor it switches
  away from, as far as the free list has room.
 */
module Reaping {
  import opened Kernel
  import opened PageFrames
  import Isolation
  import Scheduling

  /** Slot s is dead, not the current one, and its stack page has not been given back. */
  predicate Waits(k: Kernel, s: int) {
    SlotOk(k, s) && k.actors[s].state.Dead? && s != k.current && k.actors[s].stackPage != 0
  }

  /** The pages waiting to be given back, by slot. */
  function Pending(k: Kernel, i: nat): seq<nat>
    requires i <= |k.actors|
    decreases |k.actors| - i
  {
    if i == |k.actors| then []
    else (if Waits(k, i) then [k.actors[i].stackPage] else []) + Pending(k, i + 1)
  }

  ghost function PendingPages(k: Kernel): set<nat> {
    set s | 0 <= s < |k.actors| && Waits(k, s) :: k.actors[s].stackPage
  }

  lemma {:induction false} PendingIs(k: Kernel, i: nat, a: nat)
    requires i <= |k.actors|
    ensures a in Pending(k, i) <==> exists s :: i <= s < |k.actors| && Waits(k, s) && k.actors[s].stackPage == a
    decreases |k.actors| - i
  {
    if i < |k.actors| {
      PendingIs(k, i + 1, a);
    }
  }

  lemma {:induction false} PendingSame(k: Kernel, k': Kernel, i: nat)
    requires i <= |k.actors| == |k'.actors| && k'.current == k.current
    requires forall s :: i <= s < |k.actors| && s != k.current ==>
               k'.actors[s].stackPage == k.actors[s].stackPage && (k'.actors[s].state.Dead? <==> k.actors[s].state.Dead?)
    ensures Pending(k', i) == Pending(k, i)
    decreases |k.actors| - i
  {
    if i < |k.actors| {
      PendingSame(k, k', i + 1);
    }
  }

  /** As many of these as there is room for, in order. */
  function Fitting(m: Mem, pages: seq<nat>): seq<nat> {
    if |m.freeList| + |pages| <= m.freeCap then pages
    else if |m.freeList| <= m.freeCap then pages[..m.freeCap - |m.freeList|]
    else []
  }

  lemma FittingMore(m: Mem, a: nat, pages: seq<nat>)
    requires a != 0 && |m.freeList| <= m.freeCap
    ensures var m1 := FreePage(m, a);
            m1.(freeList := m1.freeList + Fitting(m1, pages)) == m.(freeList := m.freeList + Fitting(m, [a] + pages))
  {
    var m1 := FreePage(m, a);
    if |m.freeList| < m.freeCap {
      assert m.freeList + [a] + Fitting(m1, pages) == m.freeList + Fitting(m, [a] + pages);
    } else {
      assert Fitting(m, [a] + pages) == [] == Fitting(m1, pages);
    }
  }

  lemma SlotGives(k: Kernel, i: nat, k1: Kernel)
    requires WF(k) && i < |k.actors| && k1 == ReapSlot(k, i)
    ensures WF(k1) && |k1.actors| == |k.actors|
    ensures if Waits(k, i) then k1.mem == FreePage(k.mem, k.actors[i].stackPage) && Pending(k, i) == [k.actors[i].stackPage] + Pending(k1, i + 1)
            else k1.mem == k.mem && Pending(k, i) == Pending(k1, i + 1)
  {
    PendingSame(k, k1, i + 1);
  }

  /** The loop of reap_dead_actors, from slot i on. */
  lemma {:induction false} ReapGives(k: Kernel, i: nat)
    requires WF(k) && i <= |k.actors| && |k.mem.freeList| <= k.mem.freeCap
    ensures ReapFrom(k, i).mem == k.mem.(freeList := k.mem.freeList + Fitting(k.mem, Pending(k, i)))
    decreases |k.actors| - i
  {
    if i < |k.actors| {
      var k1 := ReapSlot(k, i);
      SlotGives(k, i, k1);
      ReapGives(k1, i + 1);
      if Waits(k, i) {
        FittingMore(k.mem, k.actors[i].stackPage, Pending(k1, i + 1));
      }
    } else {
      assert k.mem.freeList + [] == k.mem.freeList;
    }
  }

  lemma {:induction false} ReapClears(k: Kernel, i: nat, s: nat)
    requires WF(k) && i <= |k.actors| && SlotOk(k, s)
    ensures ReapFrom(k, i).actors[s].stackPage == if i <= s && Waits(k, s) then 0 else k.actors[s].stackPage
    decreases |k.actors| - i
  {
    if i < |k.actors| {
      ReapClears(ReapSlot(k, i), i + 1, s);
    }
  }

  lemma SwitchKeepsPages(k: Kernel, next: int)
    requires WF(k) && (next == -1 || SlotOk(k, next))
    ensures var k' := SwitchTo(k, next);
            k'.mem == k.mem && |k'.actors| == |k.actors| && forall s :: 0 <= s < |k.actors| ==> k'.actors[s].stackPage == k.actors[s].stackPage
  {
  }

  lemma ScheduleGives(k: Kernel)
    requires WF(k) && !k.halted && |k.mem.freeList| <= k.mem.freeCap
    ensures var k' := ScheduleNext(k);
            && |k'.actors| == |k.actors|
            && k'.mem == k.mem.(freeList := k.mem.freeList + Fitting(k.mem, Pending(k, 0)))
            && forall s :: 0 <= s < |k.actors| ==> k'.actors[s].stackPage == if Waits(k, s) then 0 else k.actors[s].stackPage
  {
    var k1 := ReapFrom(k, 0);
    SwitchKeepsPages(k1, PickFrom(k1.actors, if k.current < 0 then 0 else k.current, 1));
    ReapGives(k, 0);
    forall s | 0 <= s < |k.actors|
      ensures ReapFrom(k, 0).actors[s].stackPage == if Waits(k, s) then 0 else k.actors[s].stackPage
    {
      ReapClears(k, 0, s);
    }
  }

  lemma ListedAreFree(m: Mem, pages: seq<nat>)
    ensures FreeSet(m.(freeList := m.freeList + pages)) == FreeSet(m) + set a | a in pages
  {
  }

  lemma AllPending(k: Kernel)
    ensures (set a | a in Pending(k, 0)) == PendingPages(k)
  {
    forall a: nat
      ensures a in Pending(k, 0) <==> a in PendingPages(k)
    {
      PendingIs(k, 0, a);
    }
  }

  /** One scheduling decision, from any state that keeps its pages in order. */
  ghost predicate GaveBack(k: Kernel, k': Kernel) {
    && |k'.actors| == |k.actors|
    && k'.mem == k.mem.(freeList := k.mem.freeList + Fitting(k.mem, Pending(k, 0)))
    && FreeSet(k'.mem) == FreeSet(k.mem) + (set a | a in Fitting(k.mem, Pending(k, 0)))
    && (|k.mem.freeList| + |Pending(k, 0)| <= k.mem.freeCap ==> FreeSet(k'.mem) == FreeSet(k.mem) + PendingPages(k))
    && (forall s :: 0 <= s < |k.actors| ==> k'.actors[s].stackPage == if Waits(k, s) then 0 else k.actors[s].stackPage)
  }

  lemma DecisionGives(k: Kernel, e: Event)
    requires Enabled(k, e) && Scheduling.Decides(k, e) && MemInv(k.mem)
    ensures GaveBack(k, Step(k, e).0)
  {
    var k0, k' := Scheduling.AtDecision(k, e), Step(k, e).0;
    Scheduling.DecisionIsSchedule(k, e);
    AtDecisionSame(k, e);
    PendingSame(k, k0, 0);
    ScheduleGives(k0);
    ListedAreFree(k.mem, Fitting(k.mem, Pending(k, 0)));
    AllPending(k);
  }

  lemma AtDecisionSame(k: Kernel, e: Event)
    requires Enabled(k, e) && Scheduling.Decides(k, e)
    ensures var k0 := Scheduling.AtDecision(k, e);
            && k0.mem == k.mem
            && forall s :: 0 <= s < |k.actors| ==>
                 && k0.actors[s].stackPage == k.actors[s].stackPage
                 && (s != k.current ==> k0.actors[s] == k.actors[s])
                 && (Waits(k0, s) <==> Waits(k, s))
  {
  }

  /** In every run the allocator's own invariant holds. */
  lemma RunMemory(ks: seq<Kernel>, es: seq<Event>, n: nat)
    requires IsRun(ks, es) && Initial(ks[0]) && Isolation.MachineOk(ks[0]) && n < |ks|
    ensures MemInv(ks[n].mem)
  {
    Isolation.RunKeepsIsolation(ks, es, n);
  }

  lemma StackNotFree(k: Kernel, s: nat)
    requires Isolation.IsoInv(k, {}) && SlotOk(k, s) && k.actors[s].stackPage != 0
    ensures k.actors[s].stackPage !in FreeSet(k.mem)
  {
    OwnedNotFree(Ledger(k.mem, Isolation.OwnedPages(k) + {}));
    assert k.actors[s].stackPage in Isolation.StackPages(k.actors);
  }

  /**
    In every run, at every scheduling decision: the stack pages of the dead enter
    the set of free pages, slot by slot as far as the list has room, and nothing
    else does; their rows forget them; and the page of the slot switched away from
    stays off the list, even if that slot has just died.
   */
  lemma DeadPagesAreReused(ks: seq<Kernel>, es: seq<Event>, n: nat)
    requires IsRun(ks, es) && Initial(ks[0]) && Isolation.MachineOk(ks[0]) && n < |es|
    requires Enabled(ks[n], es[n]) && Scheduling.Decides(ks[n], es[n])
    ensures GaveBack(ks[n], ks[n + 1])
    ensures 0 <= ks[n].current ==> SlotOk(ks[n], ks[n].current) && ks[n].actors[ks[n].current].stackPage !in FreeSet(ks[n + 1].mem)
  {
    RunMemory(ks, es, n);
    DecisionGives(ks[n], es[n]);
    if 0 <= ks[n].current {
      CurrentPageStays(ks, es, n);
    }
  }

  lemma CurrentPageStays(ks: seq<Kernel>, es: seq<Event>, n: nat)
    requires IsRun(ks, es) && Initial(ks[0]) && Isolation.MachineOk(ks[0]) && n < |es| && 0 <= ks[n].current
    requires GaveBack(ks[n], ks[n + 1]) && Enabled(ks[n], es[n])
    ensures SlotOk(ks[n], ks[n].current) && ks[n].actors[ks[n].current].stackPage !in FreeSet(ks[n + 1].mem)
  {
    Isolation.RunKeepsIsolation(ks, es, n + 1);
    var s := ks[n].current;
    if ks[n].actors[s].stackPage != 0 {
      StackNotFree(ks[n + 1], s);
    } else {
      ZeroNotFree(ks[n + 1].mem);
    }
  }

  lemma ZeroNotFree(m: Mem)
    requires MemInv(m)
    ensures 0 !in FreeSet(m)
  {
  }
}
