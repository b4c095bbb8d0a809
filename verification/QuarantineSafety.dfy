/**
  Safety of the quarantine pipeline over every run: whatever the scheduler does
  and whatever the other actors do with their capabilities.
 */
module QuarantineSafety {
  import opened Options
  import opened Words
  import opened ActorTable
  import opened Kernel
  import opened Lifecycle
  import opened Quarantine
  import opened QuarantineView
  import opened QuarantineInvariant
  import Steps = QuarantineSteps
  import Roles = QuarantineRoles
  import Scanner = QuarantineScanner
  import Authority
  import Directory
  import Runs
  import StoreRefinement

  ghost function ShadowOf(y: System): Shadow
    requires Viewable(y.k)
  {
    Shadow(ViewOf(y.k), y.pcs, y.refused, y.verdicts)
  }

  ghost predicate SystemInv(cast: Cast, y: System) {
    Viewable(y.k) && Inv(cast, ShadowOf(y))
  }

  /** Each kind of actor keeps the invariant. */
  lemma ShadowKeeps(cast: Cast, t: Shadow, cur: nat, e: Event, out: Outcome, t': Shadow)
    requires Steps.Before(cast, t, cur, e, out, t')
    ensures Inv(cast, t')
  {
    var pc := t.pcs[cur];
    if !Advances(pc, e) {
      Steps.QuietKeeps(cast, t, cur, e, out, t');
    } else if IsD(pc) {
      Roles.DownloaderKeeps(cast, t, e, out, t');
    } else if IsS(pc) {
      Scanner.ScannerKeeps(cast, t, e, out, t');
    } else if IsR(pc) {
      Roles.ReaderKeeps(cast, t, e, out, t');
    } else {
      Roles.InspectorKeeps(cast, t, cur, e, out, t');
    }
  }

  lemma NobodyDeletes(cast: Cast, y: System)
    requires SystemInv(cast, y) && Started(y.k)
    ensures CannotDelete(y.k)
  {
    var t, s := ShadowOf(y), y.k.current;
    MyCaps(y.k, CAP_DELETE_OBJECT, 0);
    MyCaps(y.k, CAP_DELETE_OBJECT, 1);
    assert t.v.caps[s] == CapsOf(Me(y.k));
    forall c | c in t.v.caps[s]
      ensures c.op == CAP_DELETE_OBJECT ==> !Ours(c.target)
    {
      assert Permitted(cast, t, s, c);
    }
  }

  lemma SystemShadowStep(cast: Cast, y: System, e: Event)
    requires SystemInv(cast, y) && Allowed(cast, y, e)
    ensures Viewable(Next(cast, y, e).k)
    ensures Steps.Before(cast, ShadowOf(y), y.k.current, e, Step(y.k, e).1, ShadowOf(Next(cast, y, e)))
  {
    NobodyDeletes(cast, y);
    KernelViewStep(y.k, e);
  }

  lemma SystemStep(cast: Cast, y: System, e: Event)
    requires SystemInv(cast, y) && Allowed(cast, y, e)
    ensures SystemInv(cast, Next(cast, y, e))
  {
    SystemShadowStep(cast, y, e);
    ShadowKeeps(cast, ShadowOf(y), y.k.current, e, Step(y.k, e).1, ShadowOf(Next(cast, y, e)));
  }

  // ---- runs ---------------------------------------------------------------------------

  ghost predicate IsPipelineRun(cast: Cast, ys: seq<System>, es: seq<Event>) {
    && |ys| == |es| + 1
    && (forall i {:trigger es[i]} :: 0 <= i < |es| ==> Allowed(cast, ys[i], es[i]) && ys[i + 1] == Next(cast, ys[i], es[i]))
  }

  /** The scheduler has just started; objects kept from an earlier boot are trusted only if they are clean. */
  ghost predicate Booted(cast: Cast, y: System) {
    && Viewable(y.k) && |y.pcs| == |y.k.actors| && CastOk(cast, |y.pcs|)
    && y.refused == {} && y.verdicts == map[]
    && (forall s :: 0 <= s < |y.pcs| ==> y.pcs[s] == FirstPc(cast, s))
    && Alive(y.k, cast.downloader) && Alive(y.k, cast.scanner) && Alive(y.k, cast.reader)
    && (forall s :: 0 <= s < |y.pcs| && Alive(y.k, s) ==> Queue(y.k.actors[s]) == [])
    && (forall s, c: Capability :: c.op != 0 && Authority.Holds(y.k, s, c) ==> BootPolicy(cast, s, c))
    && HasCap(y.k.actors[cast.scanner], CAP_PROMOTE_OBJECT, 0)
    && HasCap(y.k.actors[cast.scanner], CAP_READ_OBJECT, 0) && HasCap(y.k.actors[cast.scanner], CAP_READ_OBJECT, 1)
    && HasCap(y.k.actors[cast.downloader], CAP_WRITE_OBJECT, 0) && HasCap(y.k.actors[cast.downloader], CAP_WRITE_OBJECT, 1)
    && (forall id :: Ours(id) ==>
          var i := ItemIn(y.k.store, id); 1 <= i.trust <= Directory.TRUSTED ==> !Marked(Inspected(i.bytes)))
  }

  lemma BootedCaps(cast: Cast, y: System, s: nat, c: Capability)
    requires Booted(cast, y) && SlotOk(y.k, s) && c in CapsOf(y.k.actors[s])
    ensures BootPolicy(cast, s, c)
  {
    HoldsIsCaps(y.k, s, c);
  }

  lemma BootedShadowOf(cast: Cast, y: System)
    requires Booted(cast, y)
    ensures BootedShadow(cast, ShadowOf(y))
  {
    var t := ShadowOf(y);
    forall s, c | 0 <= s < |t.pcs| && c in t.v.caps[s]
      ensures BootPolicy(cast, s, c)
    {
      BootedCaps(cast, y, s, c);
    }
    assert Ours(0) && Ours(1);
    assert t.v.items[0] == ItemIn(y.k.store, 0) && t.v.items[1] == ItemIn(y.k.store, 1);
  }

  lemma BootedInv(cast: Cast, y: System)
    requires Booted(cast, y)
    ensures SystemInv(cast, y)
  {
    BootedShadowOf(cast, y);
    BootedShadowInv(cast, ShadowOf(y));
  }

  lemma PipelineStep(cast: Cast, ys: seq<System>, es: seq<Event>, i: nat)
    requires IsPipelineRun(cast, ys, es) && i < |es| && SystemInv(cast, ys[i])
    ensures SystemInv(cast, ys[i + 1])
  {
    SystemStep(cast, ys[i], es[i]);
  }

  /** The invariant holds in every state of every run of the booted system. */
  lemma AlwaysInv(cast: Cast, ys: seq<System>, es: seq<Event>, n: nat)
    requires IsPipelineRun(cast, ys, es) && Booted(cast, ys[0]) && n < |ys|
    ensures SystemInv(cast, ys[n])
  {
    var inv := y => SystemInv(cast, y);
    BootedInv(cast, ys[0]);
    forall i | 0 <= i < |ys| - 1 && inv(ys[i])
      ensures inv(ys[i + 1])
    {
      PipelineStep(cast, ys, es, i);
    }
    Runs.Throughout(inv, ys, 0, n);
  }

  // ---- when Scanner's grant fails -----------------------------------------------------

  /** Scanner comes to grant its inspector the right to read object id, and the inspector's table has no empty entry. */
  ghost predicate GrantMeetsFullTable(cast: Cast, y: System, e: Event, id: int) {
    && Allowed(cast, y, e)
    && var pc := y.pcs[y.k.current];
       pc.SGrant? && pc.id == id && Advances(pc, e) && SlotOk(y.k, pc.w) && TableFull(y.k.actors[pc.w])
  }

  /** If the running actor is about to grant a right to read, it holds that right and names a slot. */
  predicate GrantIsSound(y: System)
    requires Started(y.k) && |y.pcs| == |y.k.actors|
  {
    var pc := y.pcs[y.k.current];
    pc.SGrant? ==> SlotOk(y.k, pc.w) && HasCap(Me(y.k), CAP_READ_OBJECT, pc.id)
  }

  lemma GrantOutcome(k: Kernel, w: int, id: int)
    requires Started(k) && Enabled(k, SysGrant(w, CAP_READ_OBJECT, id)) && SlotOk(k, w) && HasCap(Me(k), CAP_READ_OBJECT, id)
    ensures Step(k, SysGrant(w, CAP_READ_OBJECT, id)).1 != Code(0) <==> TableFull(k.actors[w])
  {
    Authority.DelegationRefusedIff(k, w, CAP_READ_OBJECT, id);
  }

  lemma GrantIsCalled(cast: Cast, y: System, e: Event)
    requires Allowed(cast, y, e) && y.pcs[y.k.current].SGrant? && Advances(y.pcs[y.k.current], e)
    ensures var pc := y.pcs[y.k.current]; e == SysGrant(pc.w, CAP_READ_OBJECT, pc.id)
  {
  }

  /** That is exactly when the grant is refused: Scanner holds the right, and the slot it names exists. */
  lemma RefusedStep(cast: Cast, y: System, e: Event, id: int)
    requires Allowed(cast, y, e) && GrantIsSound(y)
    ensures id in NextRefused(y.refused, y.pcs[y.k.current], e, Step(y.k, e).1) <==>
            id in y.refused || GrantMeetsFullTable(cast, y, e, id)
  {
    var pc := y.pcs[y.k.current];
    if pc.SGrant? && Advances(pc, e) {
      GrantIsCalled(cast, y, e);
      GrantOutcome(y.k, pc.w, pc.id);
    }
  }

  lemma ScannerMayGrant(cast: Cast, y: System)
    requires SystemInv(cast, y) && Started(y.k) && |y.pcs| == |y.k.actors|
    ensures GrantIsSound(y)
  {
    var t, pc := ShadowOf(y), y.pcs[y.k.current];
    if pc.SGrant? {
      assert IsS(pc) && y.k.current == cast.scanner;
      assert t.v.alive[cast.scanner] == Alive(y.k, cast.scanner);
      assert ScannerActs(cast, t);
      MyCaps(y.k, CAP_READ_OBJECT, pc.id);
      assert t.v.caps[cast.scanner] == CapsOf(Me(y.k));
    }
  }

  lemma SystemRefused(cast: Cast, y: System, e: Event, id: int)
    requires SystemInv(cast, y) && Allowed(cast, y, e)
    ensures id in Next(cast, y, e).refused <==> id in y.refused || GrantMeetsFullTable(cast, y, e, id)
  {
    ScannerMayGrant(cast, y);
    RefusedStep(cast, y, e, id);
  }

  /** Somewhere in the first n steps of the run Scanner's grant for object id met a full table. */
  ghost predicate Blocked(cast: Cast, ys: seq<System>, es: seq<Event>, n: nat, id: int)
    requires n <= |es| < |ys|
  {
    exists i :: 0 <= i < n && GrantMeetsFullTable(cast, ys[i], es[i], id)
  }

  lemma RefusedRunStep(cast: Cast, ys: seq<System>, es: seq<Event>, i: nat, id: int)
    requires IsPipelineRun(cast, ys, es) && Booted(cast, ys[0]) && i < |es|
    ensures id in ys[i + 1].refused <==> id in ys[i].refused || GrantMeetsFullTable(cast, ys[i], es[i], id)
  {
    AlwaysInv(cast, ys, es, i);
    SystemRefused(cast, ys[i], es[i], id);
  }

  ghost function FullTables(cast: Cast, ys: seq<System>, es: seq<Event>, id: int): (r: seq<bool>)
    requires |ys| == |es| + 1
    ensures |r| == |es|
  {
    seq(|es|, i requires 0 <= i < |es| => GrantMeetsFullTable(cast, ys[i], es[i], id))
  }

  lemma BlockedIsMarked(cast: Cast, ys: seq<System>, es: seq<Event>, n: nat, id: int)
    requires |ys| == |es| + 1 && n <= |es|
    ensures Blocked(cast, ys, es, n, id) <==> exists i :: 0 <= i < n && FullTables(cast, ys, es, id)[i]
  {
    if i :| 0 <= i < n && GrantMeetsFullTable(cast, ys[i], es[i], id) {
      assert FullTables(cast, ys, es, id)[i];
    }
  }

  lemma RefusedLog(cast: Cast, ys: seq<System>, es: seq<Event>, id: int, i: nat)
    requires IsPipelineRun(cast, ys, es) && Booted(cast, ys[0]) && i < |es|
    ensures RefusedFlags(ys, id)[i + 1] == (RefusedFlags(ys, id)[i] || FullTables(cast, ys, es, id)[i])
  {
    RefusedRunStep(cast, ys, es, i, id);
  }

  ghost function RefusedFlags(ys: seq<System>, id: int): (r: seq<bool>)
    ensures |r| == |ys| && forall i :: 0 <= i < |ys| ==> r[i] == (id in ys[i].refused)
  {
    seq(|ys|, i requires 0 <= i < |ys| => id in ys[i].refused)
  }

  lemma RefusedIffMarked(cast: Cast, ys: seq<System>, es: seq<Event>, n: nat, id: int)
    requires IsPipelineRun(cast, ys, es) && Booted(cast, ys[0]) && n <= |es|
    ensures RefusedFlags(ys, id)[n] <==> exists i :: 0 <= i < n && FullTables(cast, ys, es, id)[i]
  {
    var flags, marks := RefusedFlags(ys, id), FullTables(cast, ys, es, id);
    forall i | 0 <= i < |marks|
      ensures flags[i + 1] == (flags[i] || marks[i])
    {
      RefusedLog(cast, ys, es, id, i);
    }
    Runs.FlagOfMarks(flags, marks, n);
  }

  /** The log of refused grants is the log of full tables. */
  lemma RefusedIffBlocked(cast: Cast, ys: seq<System>, es: seq<Event>, n: nat, id: int)
    requires IsPipelineRun(cast, ys, es) && Booted(cast, ys[0]) && n <= |es|
    ensures id in ys[n].refused <==> Blocked(cast, ys, es, n, id)
  {
    RefusedIffMarked(cast, ys, es, n, id);
    BlockedIsMarked(cast, ys, es, n, id);
  }

  // ---- theorems -------------------------------------------------------------------------

  /** The content of object id would be rejected by an inspector able to read it. */
  predicate Bad(cast: Cast, id: int) {
    Marked(Inspected(Content(cast, id)))
  }

  /** The step hands message m to Scanner while it waits for a verdict. */
  ghost predicate ConsumesVerdict(cast: Cast, y: System, e: Event, m: Message) {
    && Allowed(cast, y, e) && y.k.current == cast.scanner && y.pcs[y.k.current].SVerdict?
    && Step(y.k, e).1 == Received(m)
  }

  lemma VerdictStep(cast: Cast, y: System, e: Event, m: Message)
    requires SystemInv(cast, y) && ConsumesVerdict(cast, y, e, m)
    ensures VerdictOk(cast, ShadowOf(y), y.pcs[cast.scanner], m)
  {
    SystemShadowStep(cast, y, e);
    Steps.VerdictTaken(cast, ShadowOf(y), e, m, ShadowOf(Next(cast, y, e)));
  }

  /**
    Whatever Scanner's wait for a verdict consumes is the verdict of the very
    inspector it spawned, on the very object it asked about: never Downloader's
    next announcement, never anybody else's message.
   */
  lemma VerdictIsTheInspectors(cast: Cast, ys: seq<System>, es: seq<Event>, i: nat, m: Message)
    requires IsPipelineRun(cast, ys, es) && Booted(cast, ys[0]) && i < |es| && ConsumesVerdict(cast, ys[i], es[i], m)
    ensures var pc := ys[i].pcs[cast.scanner];
            && m.sender == pc.w && m.data == U64(pc.id)
            && m.mtype == if !Blocked(cast, ys, es, i, pc.id) && Bad(cast, pc.id) then MSG_CHECK_FAIL else MSG_CHECK_PASS
  {
    AlwaysInv(cast, ys, es, i);
    RefusedIffBlocked(cast, ys, es, i, ys[i].pcs[cast.scanner].id);
    VerdictStep(cast, ys[i], es[i], m);
  }

  /** A decided object, in one state: what Downloader wrote, trusted or rejected as decided. */
  ghost predicate Decided(cast: Cast, y: System, id: int) {
    && Viewable(y.k) && Ours(id) && id in y.verdicts
    && ItemIn(y.k.store, id) == Item(Content(cast, id), FinalTrust(y.verdicts[id]))
  }

  lemma DecidedNow(cast: Cast, y: System, id: int)
    requires SystemInv(cast, y) && id in y.verdicts
    ensures Decided(cast, y, id)
    ensures y.verdicts[id] <==> id in y.refused || !Bad(cast, id)
  {
    var t := ShadowOf(y);
    assert VerdictsOk(cast, t);
    assert t.v.items[id] == ItemIn(y.k.store, id);
  }

  /**
    The final verdict is exact: a decided object holds what Downloader wrote, it
    is trusted or rejected as decided, and it was promoted if and only if its
    inspected prefix is clean or the inspector's capability table was full when
    Scanner came to grant it the right to read.
   */
  lemma VerdictExact(cast: Cast, ys: seq<System>, es: seq<Event>, n: nat, id: int)
    requires IsPipelineRun(cast, ys, es) && Booted(cast, ys[0]) && n < |ys| && id in ys[n].verdicts
    ensures Decided(cast, ys[n], id)
    ensures ys[n].verdicts[id] <==> !Bad(cast, id) || Blocked(cast, ys, es, n, id)
  {
    AlwaysInv(cast, ys, es, n);
    RefusedIffBlocked(cast, ys, es, n, id);
    DecidedNow(cast, ys[n], id);
  }

  /** An object that was promoted at all is clean. */
  ghost predicate CleanIfPromoted(y: System, id: int) {
    && Viewable(y.k) && id in StoreRefinement.ViewOf(y.k.store)
    && var i := ItemIn(y.k.store, id);
       1 <= i.trust <= Directory.TRUSTED ==> !Marked(Inspected(i.bytes))
  }

  lemma CleanNow(cast: Cast, y: System, id: int)
    requires SystemInv(cast, y) && Ours(id) && id !in y.refused
    ensures CleanIfPromoted(y, id)
  {
    var t := ShadowOf(y);
    assert t.v.items[id] == ItemIn(y.k.store, id);
    assert TrustOk(t, 0) && TrustOk(t, 1);
  }

  /** In every state bad content is untrusted or rejected, unless the inspector's table was full at Scanner's grant. */
  lemma BadIsNeverTrusted(cast: Cast, ys: seq<System>, es: seq<Event>, n: nat, id: int)
    requires IsPipelineRun(cast, ys, es) && Booted(cast, ys[0]) && n < |ys| && Ours(id)
    ensures CleanIfPromoted(ys[n], id) || Blocked(cast, ys, es, n, id)
  {
    AlwaysInv(cast, ys, es, n);
    RefusedIffBlocked(cast, ys, es, n, id);
    if id !in ys[n].refused {
      CleanNow(cast, ys[n], id);
    }
  }

  // ---- final means final ------------------------------------------------------------------

  lemma DecidedStep(cast: Cast, y: System, e: Event, id: int)
    requires SystemInv(cast, y) && Allowed(cast, y, e) && id in y.verdicts
    ensures var y' := Next(cast, y, e); id in y'.verdicts && y'.verdicts[id] == y.verdicts[id]
  {
    SystemShadowStep(cast, y, e);
    Steps.VerdictStays(cast, ShadowOf(y), y.k.current, e, Step(y.k, e).1, ShadowOf(Next(cast, y, e)), id);
  }

  lemma DecidedRunStep(cast: Cast, ys: seq<System>, es: seq<Event>, i: nat, id: int)
    requires IsPipelineRun(cast, ys, es) && Booted(cast, ys[0]) && i < |es| && id in ys[i].verdicts
    ensures id in ys[i + 1].verdicts && ys[i + 1].verdicts[id] == ys[i].verdicts[id]
  {
    AlwaysInv(cast, ys, es, i);
    DecidedStep(cast, ys[i], es[i], id);
  }

  lemma DecidedForGood(cast: Cast, ys: seq<System>, es: seq<Event>, m: nat, n: nat, id: int)
    requires IsPipelineRun(cast, ys, es) && Booted(cast, ys[0]) && m <= n < |ys| && id in ys[m].verdicts
    ensures id in ys[n].verdicts && ys[n].verdicts[id] == ys[m].verdicts[id]
  {
    var v := ys[m].verdicts[id];
    var inv := (y: System) => id in y.verdicts && y.verdicts[id] == v;
    forall i | m <= i < |ys| - 1 && inv(ys[i])
      ensures inv(ys[i + 1])
    {
      DecidedRunStep(cast, ys, es, i, id);
    }
    Runs.Throughout(inv, ys, m, n);
  }

  /** The step is Reader's read of object id, with this outcome. */
  ghost predicate ReaderReads(cast: Cast, y: System, e: Event, id: int, out: Outcome) {
    && Allowed(cast, y, e) && y.k.current == cast.reader && y.pcs[y.k.current].RRead?
    && e == SysRead(id, PREFIX) && out == Step(y.k, e).1
  }

  lemma ReadStep(cast: Cast, y: System, e: Event, id: int, out: Outcome)
    requires SystemInv(cast, y) && ReaderReads(cast, y, e, id, out)
    ensures id in y.verdicts && (!y.verdicts[id] ==> out == Bytes(None))
  {
    SystemShadowStep(cast, y, e);
    Steps.ReaderGets(cast, ShadowOf(y), e, out, ShadowOf(Next(cast, y, e)));
  }

  /**
    Reader reads an object only after its final verdict: what the object holds
    then, bytes and trust, is what it holds in every later state, and a rejected
    object yields nothing.
   */
  lemma ReaderReadsFinal(cast: Cast, ys: seq<System>, es: seq<Event>, i: nat, n: nat, id: int, out: Outcome)
    requires IsPipelineRun(cast, ys, es) && Booted(cast, ys[0]) && i < |es| && i <= n < |ys|
    requires ReaderReads(cast, ys[i], es[i], id, out)
    ensures Decided(cast, ys[i], id) && Decided(cast, ys[n], id)
    ensures ys[n].verdicts[id] == ys[i].verdicts[id]
    ensures !ys[i].verdicts[id] ==> out == Bytes(None)
  {
    AlwaysInv(cast, ys, es, i);
    AlwaysInv(cast, ys, es, n);
    ReadStep(cast, ys[i], es[i], id, out);
    DecidedNow(cast, ys[i], id);
    DecidedForGood(cast, ys, es, i, n, id);
    DecidedNow(cast, ys[n], id);
  }
}
