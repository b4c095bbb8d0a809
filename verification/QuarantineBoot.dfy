/**
  Before the pipeline: kernel_main's grants put it into the state its safety
  starts from.
 */
module QuarantineBoot {
  import opened Words
  import opened ActorTable
  import opened Kernel
  import opened Lifecycle
  import opened Quarantine
  import opened QuarantineView
  import opened QuarantineInvariant
  import opened QuarantineSafety
  import Authority
  import Directory
  import KernelMain
  import Machine
  import Mailboxes
  import Scheduling
  import StoreRefinement

  // ---- from power-on to the first scheduling decision ------------------------------------

  /** A run that boots and starts the scheduler. */
  ghost predicate BootRun(ks: seq<Kernel>, es: seq<Event>) {
    && IsRun(ks, es) && Initial(ks[0]) && StoreRefinement.StoreInv(ks[0].store)
    && |es| > 0 && (forall i :: 0 <= i < |es| ==> IsBoot(es[i]))
  }

  ghost predicate GrantsFollowPolicy(cast: Cast, es: seq<Event>) {
    forall i :: 0 <= i < |es| && es[i].BootGrant? ==> BootPolicy(cast, es[i].dest, Capability(es[i].op, es[i].target))
  }

  predicate NoMail(k: Kernel) {
    forall s :: 0 <= s < |k.actors| && !k.actors[s].state.Dead? ==> k.actors[s].count == 0
  }

  lemma NoMailStep(ks: seq<Kernel>, es: seq<Event>, i: nat)
    requires BootRun(ks, es) && i < |es| && NoMail(ks[i])
    ensures NoMail(ks[i + 1])
  {
    var k, e := ks[i], es[i];
    Mailboxes.CurrentAlwaysLives(ks, es, i);
    assert ks[i + 1] == Step(k, e).0;
    BootMail(k, e);
  }

  lemma BootMail(k: Kernel, e: Event)
    requires Enabled(k, e) && IsBoot(e) && Mailboxes.CurrentLives(k) && NoMail(k)
    ensures NoMail(Step(k, e).0)
  {
    var k' := Step(k, e).0;
    forall s | 0 <= s < |k'.actors| && !k'.actors[s].state.Dead?
      ensures k'.actors[s].count == 0
    {
      if SlotOk(k, s) {
        Mailboxes.StepBoxes(k, e, s);
      } else {
        Mailboxes.StepBoxes(k, e, 0);
      }
    }
  }

  lemma {:induction false} BootNoMail(ks: seq<Kernel>, es: seq<Event>, n: nat)
    requires BootRun(ks, es) && n < |ks|
    ensures NoMail(ks[n])
  {
    if n > 0 {
      BootNoMail(ks, es, n - 1);
      NoMailStep(ks, es, n - 1);
    }
  }

  /** At the end of boot, whoever holds something was granted it by kernel_main. */
  lemma BootHolders(cast: Cast, ks: seq<Kernel>, es: seq<Event>, s: int, c: Capability)
    requires BootRun(ks, es) && GrantsFollowPolicy(cast, es) && c.op != 0 && Authority.Holds(ks[|es|], s, c)
    ensures BootPolicy(cast, s, c)
  {
    var d := Authority.Unforgeable(ks, es, |es|, s, c);
    assert IsBoot(es[d.t]);
    assert es[d.t] == BootGrant(s, c.op, c.target);
  }

  /** The pipeline has its actors, its two objects and the grants it cannot do without. */
  ghost predicate CastPresent(cast: Cast, k: Kernel) {
    && Viewable(k) && CastOk(cast, |k.actors|)
    && Alive(k, cast.downloader) && Alive(k, cast.scanner) && Alive(k, cast.reader)
    && HasCap(k.actors[cast.scanner], CAP_PROMOTE_OBJECT, 0)
    && HasCap(k.actors[cast.scanner], CAP_READ_OBJECT, 0) && HasCap(k.actors[cast.scanner], CAP_READ_OBJECT, 1)
    && HasCap(k.actors[cast.downloader], CAP_WRITE_OBJECT, 0) && HasCap(k.actors[cast.downloader], CAP_WRITE_OBJECT, 1)
    && (forall id :: Ours(id) ==>
          var i := ItemIn(k.store, id); 1 <= i.trust <= Directory.TRUSTED ==> !Marked(Inspected(i.bytes)))
  }

  function FirstSystem(cast: Cast, k: Kernel): System {
    System(k, seq(|k.actors|, s requires 0 <= s < |k.actors| => FirstPc(cast, s)), {}, map[])
  }

  /** If every boot grant follows the policy, the pipeline starts in the state its safety proof needs. */
  lemma BootReachesBooted(cast: Cast, ks: seq<Kernel>, es: seq<Event>)
    requires BootRun(ks, es) && GrantsFollowPolicy(cast, es) && CastPresent(cast, ks[|es|])
    ensures Booted(cast, FirstSystem(cast, ks[|es|]))
  {
    var k := ks[|es|];
    BootNoMail(ks, es, |es|);
    forall s, c: Capability | c.op != 0 && Authority.Holds(k, s, c)
      ensures BootPolicy(cast, s, c)
    {
      BootHolders(cast, ks, es, s, c);
    }
    assert forall s :: 0 <= s < |k.actors| && Alive(k, s) ==> Queue(k.actors[s]) == [];
  }

  // ---- kernel_main itself --------------------------------------------------------------------

  /** All twenty-two of its grants follow the policy. */
  lemma GrantsFollow(cast: Cast, i: nat)
    requires cast == Machine.SomeCast(cast.payload, cast.suspicious) && i < |KernelMain.Grants()|
    ensures BootPolicy(cast, KernelMain.Grants()[i].dest, KernelMain.Grants()[i].cap)
  {
  }

  lemma EventsFollow(cast: Cast, entries: seq<nat>, hello: seq<byte>)
    requires cast == Machine.SomeCast(cast.payload, cast.suspicious)
    ensures GrantsFollowPolicy(cast, KernelMain.KernelMain(entries, hello))
    ensures forall e :: e in KernelMain.KernelMain(entries, hello) ==> IsBoot(e)
  {
    var es, gs := KernelMain.KernelMain(entries, hello), KernelMain.Grants();
    var first := |entries| + |KernelMain.Creations(hello)|;
    forall i | 0 <= i < |es| && es[i].BootGrant?
      ensures BootPolicy(cast, es[i].dest, Capability(es[i].op, es[i].target))
    {
      assert first <= i < first + |gs| && es[i] == KernelMain.GrantEvents(gs)[i - first];
      GrantsFollow(cast, i - first);
    }
  }

  lemma KernelMainCast(cast: Cast, k: Kernel)
    requires cast == Machine.SomeCast(cast.payload, cast.suspicious) && CastOk(cast, Machine.MAX_ACTORS)
    requires KernelMain.Up(k, KernelMain.Grants()) && KernelMain.TwoUntrusted(k.store) && Scheduling.SchedInv(k)
    ensures CastPresent(cast, k)
  {
    KernelMain.PipelineHolds(k);
  }

  lemma KernelMainBootRun(cast: Cast, ks: seq<Kernel>, entries: seq<nat>, hello: seq<byte>)
    requires cast == Machine.SomeCast(cast.payload, cast.suspicious) && |entries| == KernelMain.ACTORS
    requires IsRun(ks, KernelMain.KernelMain(entries, hello)) && ks[0] == Machine.Booting()
    ensures BootRun(ks, KernelMain.KernelMain(entries, hello)) && Scheduling.SchedInv(ks[|KernelMain.KernelMain(entries, hello)|])
  {
    var es := KernelMain.KernelMain(entries, hello);
    Machine.MachineExists();
    EventsFollow(cast, entries, hello);
    assert forall i :: 0 <= i < |es| ==> es[i] in es;
    Scheduling.InitialSched(ks[0]);
    Scheduling.RunSched(ks, es, |es|);
  }

  /**
    kernel_main, with its fifteen spawns, three objects and twenty-two grants,
    run on a blank disk, brings the machine into the state the pipeline's
    theorems start from, whatever the actors' programs and contents are.
   */
  lemma KernelMainReachesBooted(cast: Cast, entries: seq<nat>, hello: seq<byte>) returns (ks: seq<Kernel>)
    requires cast == Machine.SomeCast(cast.payload, cast.suspicious) && |entries| == KernelMain.ACTORS
    requires |cast.payload| <= Directory.OBJECT_MAX_BYTES && |cast.suspicious| <= Directory.OBJECT_MAX_BYTES
    ensures var es := KernelMain.KernelMain(entries, hello);
            && BootRun(ks, es) && ks[0] == Machine.Booting() && Booted(cast, FirstSystem(cast, ks[|es|]))
            && KernelMain.Up(ks[|es|], KernelMain.Grants()) && KernelMain.TwoUntrusted(ks[|es|].store)
  {
    ks := KernelMain.KernelMainRuns(entries, hello);
    var es := KernelMain.KernelMain(entries, hello);
    KernelMainBootRun(cast, ks, entries, hello);
    EventsFollow(cast, entries, hello);
    KernelMainCast(cast, ks[|es|]);
    BootReachesBooted(cast, ks, es);
  }
}
