/** Every step of every actor keeps the pipeline's invariant. */
module QuarantineSteps {
  import opened Options
  import opened ActorTable
  import opened Kernel
  import opened Quarantine
  import opened QuarantineView
  import opened QuarantineInvariant

  ghost predicate Before(cast: Cast, t: Shadow, cur: nat, e: Event, out: Outcome, t': Shadow) {
    ShadowStep(cast, t, cur, e, out, t') && Inv(cast, t)
  }

  lemma Sane(cast: Cast, t: Shadow)
    requires Inv(cast, t)
    ensures ScannerSane(cast, t)
  {
  }

  /** Roles and capabilities take care of themselves. */
  lemma RightsKept(cast: Cast, t: Shadow, cur: nat, e: Event, out: Outcome, t': Shadow)
    requires Before(cast, t, cur, e, out, t')
    ensures RolesOk(cast, t') && HoldersOk(cast, t')
  {
    Sane(cast, t);
    PartsStep(cast, t, cur, e, out, t');
    HoldersStep(cast, t, cur, e, out, t');
  }

  predicate PartSame(t: Shadow, t': Shadow, x: nat)
    requires Sized(t.v) && Sized(t'.v) && |t.pcs| == |t'.pcs| == |t.v.alive| == |t'.v.alive| && x < |t.pcs|
  {
    t'.v.alive[x] && t'.pcs[x] == t.pcs[x] && t'.v.queue[x] == t.v.queue[x]
  }

  /** An inspector goes on as it was; mail may have come in, but none from Scanner. */
  ghost predicate InspectorSame(cast: Cast, t: Shadow, t': Shadow, s: nat)
    requires Shaped(cast, t) && Shaped(cast, t') && |t.pcs| == |t'.pcs| && s < |t.pcs|
  {
    && Inspects(t, s) && t'.pcs[s] == t.pcs[s]
    && (ScannerActs(cast, t) ==> forall m :: m in t'.v.queue[s] ==> m in t.v.queue[s] || m.sender != cast.scanner)
    && (forall id :: Ours(id) && Guarded(cast, t, id) ==>
          (Capability(CAP_READ_OBJECT, id) in t'.v.caps[s] <==> Capability(CAP_READ_OBJECT, id) in t.v.caps[s]))
  }

  /** Of the programs, only Scanner's delegates. */
  lemma OnlyScannerGrants(cast: Cast, pc: Pc, e: Event)
    requires ByProgram(cast, pc, e) && e.SysGrant?
    ensures pc.Other? || (pc.SGrant? && Advances(pc, e))
  {
  }

  lemma NoNewRead(cast: Cast, t: Shadow, cur: nat, e: Event, out: Outcome, s: nat, id: int)
    requires Shaped(cast, t) && cur < |t.pcs| && s < |t.pcs| && HoldersOk(cast, t) && ByProgram(cast, t.pcs[cur], e)
    requires Ours(id) && Guarded(cast, t, id) && !(IsS(t.pcs[cur]) && Advances(t.pcs[cur], e))
    ensures !NewCap(t.v, cur, e, out, s, Capability(CAP_READ_OBJECT, id))
  {
    var c := Capability(CAP_READ_OBJECT, id);
    assert c in t.v.caps[cur] ==> Permitted(cast, t, cur, c);
    if e.SysGrant? {
      OnlyScannerGrants(cast, t.pcs[cur], e);
    }
  }

  /** Nobody but Scanner gives an inspector the right to read a guarded object. */
  lemma InspectorRights(cast: Cast, t: Shadow, cur: nat, e: Event, out: Outcome, t': Shadow, s: nat, id: int)
    requires ShadowStep(cast, t, cur, e, out, t') && RolesOk(cast, t) && HoldersOk(cast, t) && s < |t.pcs| && t'.v.alive[s] && Ours(id) && Guarded(cast, t, id)
    requires !(IsS(t.pcs[cur]) && Advances(t.pcs[cur], e))
    ensures Capability(CAP_READ_OBJECT, id) in t'.v.caps[s] <==> Capability(CAP_READ_OBJECT, id) in t.v.caps[s]
  {
    var c := Capability(CAP_READ_OBJECT, id);
    assert CapsStep(t.v, cur, e, out, t'.v, s);
    NoNewRead(cast, t, cur, e, out, s, id);
  }

  lemma InspectorStands(cast: Cast, t: Shadow, cur: nat, e: Event, out: Outcome, t': Shadow, s: nat)
    requires ShadowStep(cast, t, cur, e, out, t') && RolesOk(cast, t) && HoldersOk(cast, t) && Inspects(t', s)
    requires !(IsS(t.pcs[cur]) && Advances(t.pcs[cur], e)) && !(cur == s && Advances(t.pcs[cur], e))
    ensures InspectorSame(cast, t, t', s)
  {
    PartsStep(cast, t, cur, e, out, t');
    PcStep(cast, t, cur, e, out, t', s);
    assert QueueStep(t.v, cur, e, out, t'.v, s);
    forall id | Ours(id) && Guarded(cast, t, id)
      ensures Capability(CAP_READ_OBJECT, id) in t'.v.caps[s] <==> Capability(CAP_READ_OBJECT, id) in t.v.caps[s]
    {
      InspectorRights(cast, t, cur, e, out, t', s, id);
    }
  }

  // ---- a step of somebody else leaves each part standing -----------------------------------------

  lemma ScannerStands(cast: Cast, t: Shadow, cur: nat, e: Event, out: Outcome, t': Shadow)
    requires ShadowStep(cast, t, cur, e, out, t') && RolesOk(cast, t) && HoldersOk(cast, t)
    requires cur != cast.scanner
    ensures ScannerActs(cast, t') <==> ScannerActs(cast, t)
    ensures ScannerActs(cast, t) ==> t'.pcs[cast.scanner] == t.pcs[cast.scanner]
  {
    PartsStep(cast, t, cur, e, out, t');
    if ScannerActs(cast, t) {
      OthersStand(cast, t, cur, e, out, t', cast.scanner);
    }
  }

  lemma DownloaderStands(cast: Cast, t: Shadow, cur: nat, e: Event, out: Outcome, t': Shadow)
    requires ShadowStep(cast, t, cur, e, out, t') && RolesOk(cast, t) && HoldersOk(cast, t)
    requires cur != cast.downloader && !IsS(t.pcs[cur])
    ensures DownloaderActs(cast, t') <==> DownloaderActs(cast, t)
    ensures DownloaderActs(cast, t) ==> PartSame(t, t', cast.downloader)
  {
    PartsStep(cast, t, cur, e, out, t');
    if DownloaderActs(cast, t) {
      OthersStand(cast, t, cur, e, out, t', cast.downloader);
      var c := Capability(CAP_SEND, cast.downloader);
      assert c in t.v.caps[cur] ==> Permitted(cast, t, cur, c);
    }
  }

  lemma ReaderStands(cast: Cast, t: Shadow, cur: nat, e: Event, out: Outcome, t': Shadow)
    requires ShadowStep(cast, t, cur, e, out, t') && RolesOk(cast, t) && HoldersOk(cast, t)
    requires cur != cast.reader && !IsS(t.pcs[cur])
    ensures ReaderActs(cast, t') <==> ReaderActs(cast, t)
    ensures ReaderActs(cast, t) ==> PartSame(t, t', cast.reader)
  {
    PartsStep(cast, t, cur, e, out, t');
    if ReaderActs(cast, t) {
      OthersStand(cast, t, cur, e, out, t', cast.reader);
      var c := Capability(CAP_SEND, cast.reader);
      assert c in t.v.caps[cur] ==> Permitted(cast, t, cur, c);
    }
  }

  /** Only Downloader's and Scanner's programs touch the objects. */
  lemma ItemsStand(cast: Cast, t: Shadow, cur: nat, e: Event, out: Outcome, t': Shadow)
    requires ShadowStep(cast, t, cur, e, out, t') && (IsI(t.pcs[cur]) || IsR(t.pcs[cur]))
    ensures t'.v.items == t.v.items && t'.refused == t.refused && t'.verdicts == t.verdicts
  {
    assert ItemStep(t.v, cur, e, t'.v, 0) && ItemStep(t.v, cur, e, t'.v, 1);
  }

  // ---- steps of other actors, timer ticks, console writes ---------------------------------------

  ghost predicate AllSame(cast: Cast, t: Shadow, t': Shadow)
    requires Shaped(cast, t) && Shaped(cast, t') && |t.pcs| == |t'.pcs|
  {
    && t'.v.items == t.v.items && t'.refused == t.refused && t'.verdicts == t.verdicts
    && (ScannerActs(cast, t') <==> ScannerActs(cast, t)) && (ScannerActs(cast, t) ==> PartSame(t, t', cast.scanner))
    && (DownloaderActs(cast, t') <==> DownloaderActs(cast, t)) && (DownloaderActs(cast, t) ==> PartSame(t, t', cast.downloader))
    && (ReaderActs(cast, t') <==> ReaderActs(cast, t)) && (ReaderActs(cast, t) ==> PartSame(t, t', cast.reader))
    && (forall s :: 0 <= s < |t.pcs| && Inspects(t', s) ==> InspectorSame(cast, t, t', s))
    && (ScannerActs(cast, t) && Supervises(t.pcs[cast.scanner]) && 0 <= t.pcs[cast.scanner].w < |t.pcs| ==>
          !IsD(t'.pcs[t.pcs[cast.scanner].w]) && !IsR(t'.pcs[t.pcs[cast.scanner].w]))
  }

  /** Without a step of its own program an actor can reach neither Scanner, Downloader nor Reader. */
  lemma QuietPart(cast: Cast, t: Shadow, cur: nat, e: Event, out: Outcome, t': Shadow, x: nat)
    requires ShadowStep(cast, t, cur, e, out, t') && RolesOk(cast, t) && HoldersOk(cast, t) && !Advances(t.pcs[cur], e) && x < |t.pcs|
    requires (x == cast.scanner && ScannerActs(cast, t)) || (x == cast.downloader && DownloaderActs(cast, t))
             || (x == cast.reader && ReaderActs(cast, t))
    ensures PartSame(t, t', x)
  {
    PcStep(cast, t, cur, e, out, t', x);
    assert QueueStep(t.v, cur, e, out, t'.v, x);
    if x != cur {
      OthersStand(cast, t, cur, e, out, t', x);
      assert Capability(CAP_SEND, x) in t.v.caps[cur] ==> Permitted(cast, t, cur, Capability(CAP_SEND, x));
    }
  }

  /** Nor can it touch the two objects. */
  lemma QuietItems(cast: Cast, t: Shadow, cur: nat, e: Event, out: Outcome, t': Shadow)
    requires ShadowStep(cast, t, cur, e, out, t') && RolesOk(cast, t) && HoldersOk(cast, t) && !Advances(t.pcs[cur], e)
    ensures t'.v.items == t.v.items
  {
    forall id | Ours(id)
      ensures t'.v.items[id] == t.v.items[id]
    {
      assert ItemStep(t.v, cur, e, t'.v, id);
      assert Capability(CAP_WRITE_OBJECT, id) in t.v.caps[cur] ==> Permitted(cast, t, cur, Capability(CAP_WRITE_OBJECT, id));
      assert Capability(CAP_PROMOTE_OBJECT, 0) in t.v.caps[cur] ==> Permitted(cast, t, cur, Capability(CAP_PROMOTE_OBJECT, 0));
    }
    assert Ours(0) && Ours(1);
  }

  lemma QuietSame(cast: Cast, t: Shadow, cur: nat, e: Event, out: Outcome, t': Shadow)
    requires Before(cast, t, cur, e, out, t') && !Advances(t.pcs[cur], e)
    ensures AllSame(cast, t, t')
  {
    PartsStep(cast, t, cur, e, out, t');
    QuietItems(cast, t, cur, e, out, t');
    if ScannerActs(cast, t) {
      QuietPart(cast, t, cur, e, out, t', cast.scanner);
      if Supervises(t.pcs[cast.scanner]) {
        PcStep(cast, t, cur, e, out, t', t.pcs[cast.scanner].w);
      }
    }
    if DownloaderActs(cast, t) {
      QuietPart(cast, t, cur, e, out, t', cast.downloader);
    }
    if ReaderActs(cast, t) {
      QuietPart(cast, t, cur, e, out, t', cast.reader);
    }
    forall s | 0 <= s < |t.pcs| && Inspects(t', s)
      ensures InspectorSame(cast, t, t', s)
    {
      InspectorStands(cast, t, cur, e, out, t', s);
    }
  }

  /** Inspectors that go on as they were stay in order if Scanner does. */
  lemma SameInspectors(cast: Cast, t: Shadow, t': Shadow)
    requires Inv(cast, t) && Shaped(cast, t') && |t.pcs| == |t'.pcs| && t'.refused == t.refused
    requires ScannerActs(cast, t) ==> t'.v.alive[cast.scanner] && t'.pcs[cast.scanner] == t.pcs[cast.scanner]
    requires ScannerActs(cast, t) && Supervises(t.pcs[cast.scanner]) ==> t'.v.queue[cast.scanner] == t.v.queue[cast.scanner]
    requires forall s :: 0 <= s < |t.pcs| && Inspects(t', s) && !t'.pcs[s].IExit? ==> InspectorSame(cast, t, t', s)
    ensures InspectorsOk(cast, t')
  {
    forall s | 0 <= s < |t'.pcs| && Inspects(t', s) && !t'.pcs[s].IExit?
      ensures InspectorOk(cast, t', s)
    {
      assert InspectorSame(cast, t, t', s);
      assert InspectorOk(cast, t, s);
      assert Guarded(cast, t, t.pcs[cast.scanner].id);
    }
  }

  lemma SameKeeps(cast: Cast, t: Shadow, t': Shadow)
    requires Inv(cast, t) && Shaped(cast, t') && |t.pcs| == |t'.pcs| && AllSame(cast, t, t')
    requires RolesOk(cast, t') && HoldersOk(cast, t')
    ensures Inv(cast, t')
  {
    SameInspectors(cast, t, t');
    assert TurnsOk(cast, t');
    assert ScanItem(cast, t');
    assert VerdictsOk(cast, t');
    assert ReaderOk(cast, t');
  }

  lemma QuietKeeps(cast: Cast, t: Shadow, cur: nat, e: Event, out: Outcome, t': Shadow)
    requires Before(cast, t, cur, e, out, t') && !Advances(t.pcs[cur], e)
    ensures Inv(cast, t')
  {
    RightsKept(cast, t, cur, e, out, t');
    QuietSame(cast, t, cur, e, out, t');
    SameKeeps(cast, t, t');
  }

  // ---- what single steps show ------------------------------------------------------------------

  /** A message Scanner takes while it waits for a verdict is the one it waits for. */
  lemma VerdictTaken(cast: Cast, t: Shadow, e: Event, m: Message, t': Shadow)
    requires Before(cast, t, cast.scanner, e, Received(m), t') && t.pcs[cast.scanner].SVerdict?
    ensures VerdictOk(cast, t, t.pcs[cast.scanner], m)
  {
    assert QueueStep(t.v, cast.scanner, e, Received(m), t'.v, cast.scanner);
    assert t.v.queue[cast.scanner][0] == m;
  }

  /** A verdict is never revised. */
  lemma VerdictStays(cast: Cast, t: Shadow, cur: nat, e: Event, out: Outcome, t': Shadow, id: int)
    requires Before(cast, t, cur, e, out, t') && id in t.verdicts
    ensures id in t'.verdicts && t'.verdicts[id] == t.verdicts[id]
  {
    assert !Undecided(cast, t, id);
  }

  /** Reader reads decided objects only, and gets nothing from a rejected one. */
  lemma ReaderGets(cast: Cast, t: Shadow, e: Event, out: Outcome, t': Shadow)
    requires Before(cast, t, cast.reader, e, out, t') && t.pcs[cast.reader].RRead? && e.SysRead?
    ensures e.id in t.verdicts && (!t.verdicts[e.id] ==> out == Bytes(None))
  {
    assert ReaderActs(cast, t) && e == Call(cast, t.pcs[cast.reader]);
    assert ReadOut(t.v, cast.reader, e, out);
  }
}
