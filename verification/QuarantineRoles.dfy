/** The steps of Downloader, Reader and the inspectors keep the pipeline's invariant. */
module QuarantineRoles {
  import opened Words
  import opened Kernel
  import opened Quarantine
  import opened QuarantineView
  import opened QuarantineInvariant
  import opened QuarantineSteps
  import Directory

  // ---- Downloader --------------------------------------------------------------------

  ghost predicate DownloaderStep(cast: Cast, t: Shadow, e: Event, out: Outcome, t': Shadow) {
    && Before(cast, t, cast.downloader, e, out, t')
    && IsD(t.pcs[cast.downloader]) && Advances(t.pcs[cast.downloader], e)
  }

  /** What Downloader's step leaves alone. */
  lemma DownloaderFrame(cast: Cast, t: Shadow, e: Event, out: Outcome, t': Shadow)
    requires DownloaderStep(cast, t, e, out, t')
    ensures DownloaderActs(cast, t) && t'.refused == t.refused && t'.verdicts == t.verdicts
    ensures t'.pcs[cast.downloader] == After(t.pcs[cast.downloader], out)
    ensures !t.pcs[cast.downloader].DExit? ==> t'.v.alive[cast.downloader]
    ensures ScannerActs(cast, t') <==> ScannerActs(cast, t)
    ensures ScannerActs(cast, t) ==> t'.pcs[cast.scanner] == t.pcs[cast.scanner]
    ensures ReaderActs(cast, t') <==> ReaderActs(cast, t)
    ensures ReaderActs(cast, t) ==> PartSame(t, t', cast.reader)
  {
    var cur := cast.downloader;
    PcStep(cast, t, cur, e, out, t', cur);
    ScannerStands(cast, t, cur, e, out, t');
    ReaderStands(cast, t, cur, e, out, t');
  }

  /** Its mail goes to Scanner, and only from DSend; its own mailbox changes only by receiving. */
  lemma DownloaderMail(cast: Cast, t: Shadow, e: Event, out: Outcome, t': Shadow)
    requires DownloaderStep(cast, t, e, out, t') && ScannerActs(cast, t)
    ensures var d, qs, qs' := t.pcs[cast.downloader], t.v.queue[cast.scanner], t'.v.queue[cast.scanner];
            qs' == qs || (d.DSend? && qs' == qs + [DoneMessage(cast, d.id)])
    ensures var d, qd, qd' := t.pcs[cast.downloader], t.v.queue[cast.downloader], t'.v.queue[cast.downloader];
            if d.DAck? && out.Received? then qd != [] else qd' == qd
  {
    OthersStand(cast, t, cast.downloader, e, out, t', cast.scanner);
    DownloaderOwnMail(cast, t, e, out, t');
  }

  lemma DownloaderOwnMail(cast: Cast, t: Shadow, e: Event, out: Outcome, t': Shadow)
    requires DownloaderStep(cast, t, e, out, t')
    ensures var d, qd, qd' := t.pcs[cast.downloader], t.v.queue[cast.downloader], t'.v.queue[cast.downloader];
            if d.DAck? && out.Received? then qd != [] else qd' == qd
  {
    assert QueueStep(t.v, cast.downloader, e, out, t'.v, cast.downloader);
  }

  /** Whoever Scanner supervises does not become Downloader or Reader. */
  lemma ChargeStands(cast: Cast, t: Shadow, cur: nat, e: Event, out: Outcome, t': Shadow)
    requires ShadowStep(cast, t, cur, e, out, t') && TurnsOk(cast, t) && ScannerActs(cast, t)
    ensures var pc := t.pcs[cast.scanner];
            Supervises(pc) ==> 0 <= pc.w < |t'.pcs| && !IsD(t'.pcs[pc.w]) && !IsR(t'.pcs[pc.w])
  {
    if Supervises(t.pcs[cast.scanner]) {
      PcStep(cast, t, cur, e, out, t', t.pcs[cast.scanner].w);
    }
  }

  /** Whose turn it is stays settled while Downloader stands still and Scanner's mail grows by a due verdict at most. */
  lemma TurnsStand(cast: Cast, t: Shadow, t': Shadow)
    requires Shaped(cast, t) && Shaped(cast, t') && |t'.pcs| == |t.pcs| && TurnsOk(cast, t) && t'.refused == t.refused
    requires DownloaderActs(cast, t') <==> DownloaderActs(cast, t)
    requires DownloaderActs(cast, t) ==> PartSame(t, t', cast.downloader)
    requires ScannerActs(cast, t') <==> ScannerActs(cast, t)
    requires ScannerActs(cast, t) ==>
               && t'.pcs[cast.scanner] == t.pcs[cast.scanner]
               && var pc, qs, qs' := t.pcs[cast.scanner], t.v.queue[cast.scanner], t'.v.queue[cast.scanner];
               && (qs' == qs || (pc.SVerdict? && |qs'| == 1 && VerdictOk(cast, t, pc, qs'[0])))
               && (Supervises(pc) ==> 0 <= pc.w < |t'.pcs| && !IsD(t'.pcs[pc.w]) && !IsR(t'.pcs[pc.w]))
    ensures TurnsOk(cast, t')
  {
  }

  lemma DownloaderTurns(cast: Cast, t: Shadow, e: Event, out: Outcome, t': Shadow)
    requires DownloaderStep(cast, t, e, out, t')
    ensures TurnsOk(cast, t')
  {
    DownloaderFrame(cast, t, e, out, t');
    if ScannerActs(cast, t) {
      DownloaderMail(cast, t, e, out, t');
      ChargeStands(cast, t, cast.downloader, e, out, t');
    }
  }

  function WrittenItem(cast: Cast, pc: Pc, i: Item, id: int): Item {
    if pc == DWrite(id) then Item(Content(cast, id), Directory.UNTRUSTED) else i
  }

  lemma DownloaderItems(cast: Cast, t: Shadow, e: Event, out: Outcome, t': Shadow)
    requires DownloaderStep(cast, t, e, out, t')
    ensures forall id :: Ours(id) ==> t'.v.items[id] == WrittenItem(cast, t.pcs[cast.downloader], t.v.items[id], id)
  {
    assert DownloaderActs(cast, t);
    forall id | Ours(id)
      ensures t'.v.items[id] == WrittenItem(cast, t.pcs[cast.downloader], t.v.items[id], id)
    {
      assert ItemStep(t.v, cast.downloader, e, t'.v, id);
    }
  }

  /** Downloader writes an object only before Scanner has turned to it. */
  lemma WrittenKeeps(cast: Cast, t: Shadow, out: Outcome, t': Shadow)
    requires Inv(cast, t) && Shaped(cast, t') && |t'.pcs| == |t.pcs| && DownloaderActs(cast, t)
    requires t'.refused == t.refused && t'.verdicts == t.verdicts
    requires t'.pcs[cast.downloader] == After(t.pcs[cast.downloader], out)
    requires ScannerActs(cast, t') <==> ScannerActs(cast, t)
    requires ScannerActs(cast, t) ==> t'.pcs[cast.scanner] == t.pcs[cast.scanner]
    requires !t.pcs[cast.downloader].DExit? ==> t'.v.alive[cast.downloader]
    requires forall id :: Ours(id) ==> t'.v.items[id] == WrittenItem(cast, t.pcs[cast.downloader], t.v.items[id], id)
    ensures ScanItem(cast, t') && VerdictsOk(cast, t') && TrustOk(t', 0) && TrustOk(t', 1)
  {
    assert Ours(0) && Ours(1);
    assert TurnsOk(cast, t);
  }

  lemma DownloaderKeeps(cast: Cast, t: Shadow, e: Event, out: Outcome, t': Shadow)
    requires DownloaderStep(cast, t, e, out, t')
    ensures Inv(cast, t')
  {
    RightsKept(cast, t, cast.downloader, e, out, t');
    DownloaderFrame(cast, t, e, out, t');
    DownloaderTurns(cast, t, e, out, t');
    DownloaderItems(cast, t, e, out, t');
    WrittenKeeps(cast, t, out, t');
    DownloaderLeavesInspectors(cast, t, e, out, t');
    assert ReaderOk(cast, t');
  }

  lemma DownloaderLeavesInspectors(cast: Cast, t: Shadow, e: Event, out: Outcome, t': Shadow)
    requires DownloaderStep(cast, t, e, out, t')
    ensures InspectorsOk(cast, t')
  {
    DownloaderFrame(cast, t, e, out, t');
    forall s | 0 <= s < |t.pcs| && Inspects(t', s)
      ensures InspectorSame(cast, t, t', s)
    {
      InspectorStands(cast, t, cast.downloader, e, out, t', s);
    }
    if ScannerActs(cast, t) {
      DownloaderMail(cast, t, e, out, t');
    }
    SameInspectors(cast, t, t');
  }

  /** Nothing that concerns the objects has changed. */
  lemma SameItems(cast: Cast, t: Shadow, t': Shadow)
    requires Inv(cast, t) && Shaped(cast, t') && |t.pcs| == |t'.pcs|
    requires t'.refused == t.refused && t'.verdicts == t.verdicts && t'.v.items == t.v.items
    requires ScannerActs(cast, t') <==> ScannerActs(cast, t)
    requires ScannerActs(cast, t) ==> t'.pcs[cast.scanner] == t.pcs[cast.scanner]
    requires DownloaderActs(cast, t') <==> DownloaderActs(cast, t)
    requires DownloaderActs(cast, t) ==> t'.pcs[cast.downloader] == t.pcs[cast.downloader]
    ensures ScanItem(cast, t') && VerdictsOk(cast, t') && TrustOk(t', 0) && TrustOk(t', 1)
  {
  }

  // ---- Reader ------------------------------------------------------------------------

  ghost predicate ReaderStep(cast: Cast, t: Shadow, e: Event, out: Outcome, t': Shadow) {
    && Before(cast, t, cast.reader, e, out, t')
    && IsR(t.pcs[cast.reader]) && Advances(t.pcs[cast.reader], e)
  }

  /** Reader sends nothing and writes nothing. */
  lemma ReaderFrame(cast: Cast, t: Shadow, e: Event, out: Outcome, t': Shadow)
    requires ReaderStep(cast, t, e, out, t')
    ensures t'.refused == t.refused && t'.verdicts == t.verdicts && t'.v.items == t.v.items
    ensures ScannerActs(cast, t') <==> ScannerActs(cast, t)
    ensures ScannerActs(cast, t) ==> PartSame(t, t', cast.scanner)
    ensures DownloaderActs(cast, t') <==> DownloaderActs(cast, t)
    ensures DownloaderActs(cast, t) ==> PartSame(t, t', cast.downloader)
  {
    var cur := cast.reader;
    ScannerStands(cast, t, cur, e, out, t');
    DownloaderStands(cast, t, cur, e, out, t');
    ItemsStand(cast, t, cur, e, out, t');
    if ScannerActs(cast, t) {
      OthersStand(cast, t, cur, e, out, t', cast.scanner);
    }
  }

  lemma ReaderItself(cast: Cast, t: Shadow, e: Event, out: Outcome, t': Shadow)
    requires ReaderStep(cast, t, e, out, t')
    ensures ReaderOk(cast, t')
  {
    var cur := cast.reader;
    PartsStep(cast, t, cur, e, out, t');
    PcStep(cast, t, cur, e, out, t', cur);
    assert QueueStep(t.v, cur, e, out, t'.v, cur);
  }

  lemma ReaderTurns(cast: Cast, t: Shadow, e: Event, out: Outcome, t': Shadow)
    requires ReaderStep(cast, t, e, out, t')
    ensures TurnsOk(cast, t')
  {
    ReaderFrame(cast, t, e, out, t');
    if ScannerActs(cast, t) {
      ChargeStands(cast, t, cast.reader, e, out, t');
    }
    TurnsStand(cast, t, t');
  }

  lemma ReaderKeeps(cast: Cast, t: Shadow, e: Event, out: Outcome, t': Shadow)
    requires ReaderStep(cast, t, e, out, t')
    ensures Inv(cast, t')
  {
    RightsKept(cast, t, cast.reader, e, out, t');
    ReaderFrame(cast, t, e, out, t');
    ReaderItself(cast, t, e, out, t');
    ReaderTurns(cast, t, e, out, t');
    SameItems(cast, t, t');
    ReaderLeavesInspectors(cast, t, e, out, t');
  }

  lemma ReaderLeavesInspectors(cast: Cast, t: Shadow, e: Event, out: Outcome, t': Shadow)
    requires ReaderStep(cast, t, e, out, t')
    ensures InspectorsOk(cast, t')
  {
    ReaderFrame(cast, t, e, out, t');
    forall s | 0 <= s < |t.pcs| && Inspects(t', s)
      ensures InspectorSame(cast, t, t', s)
    {
      InspectorStands(cast, t, cast.reader, e, out, t', s);
    }
    SameInspectors(cast, t, t');
  }

  // ---- inspectors --------------------------------------------------------------------

  ghost predicate InspectorStep(cast: Cast, t: Shadow, cur: nat, e: Event, out: Outcome, t': Shadow) {
    && Before(cast, t, cur, e, out, t')
    && IsI(t.pcs[cur]) && Advances(t.pcs[cur], e)
  }

  /** An inspector's step leaves everything alone but itself and, when it answers Scanner, Scanner's mailbox. */
  /** It is none of the three. */
  lemma InspectorApart(cast: Cast, t: Shadow, cur: nat, e: Event, out: Outcome, t': Shadow)
    requires InspectorStep(cast, t, cur, e, out, t')
    ensures cur == cast.scanner ==> !ScannerActs(cast, t) && !ScannerActs(cast, t')
    ensures cur == cast.downloader ==> !DownloaderActs(cast, t) && !DownloaderActs(cast, t')
    ensures cur == cast.reader ==> !ReaderActs(cast, t) && !ReaderActs(cast, t')
    ensures t'.pcs[cur] == After(t.pcs[cur], out)
  {
    PcStep(cast, t, cur, e, out, t', cur);
    PartsStep(cast, t, cur, e, out, t');
  }

  lemma InspectorFrame(cast: Cast, t: Shadow, cur: nat, e: Event, out: Outcome, t': Shadow)
    requires InspectorStep(cast, t, cur, e, out, t')
    ensures t'.refused == t.refused && t'.verdicts == t.verdicts && t'.v.items == t.v.items
    ensures ScannerActs(cast, t') <==> ScannerActs(cast, t)
    ensures ScannerActs(cast, t) ==> t'.pcs[cast.scanner] == t.pcs[cast.scanner]
    ensures DownloaderActs(cast, t') <==> DownloaderActs(cast, t)
    ensures DownloaderActs(cast, t) ==> PartSame(t, t', cast.downloader)
    ensures ReaderActs(cast, t') <==> ReaderActs(cast, t)
    ensures ReaderActs(cast, t) ==> PartSame(t, t', cast.reader)
    ensures t'.pcs[cur] == After(t.pcs[cur], out)
  {
    InspectorApart(cast, t, cur, e, out, t');
    if cur != cast.scanner {
      ScannerStands(cast, t, cur, e, out, t');
    }
    InspectorLeavesOthers(cast, t, cur, e, out, t');
    ItemsStand(cast, t, cur, e, out, t');
  }

  lemma InspectorLeavesOthers(cast: Cast, t: Shadow, cur: nat, e: Event, out: Outcome, t': Shadow)
    requires InspectorStep(cast, t, cur, e, out, t')
    ensures DownloaderActs(cast, t') <==> DownloaderActs(cast, t)
    ensures DownloaderActs(cast, t) ==> PartSame(t, t', cast.downloader)
    ensures ReaderActs(cast, t') <==> ReaderActs(cast, t)
    ensures ReaderActs(cast, t) ==> PartSame(t, t', cast.reader)
  {
    InspectorApart(cast, t, cur, e, out, t');
    if cur != cast.downloader {
      DownloaderStands(cast, t, cur, e, out, t');
    }
    if cur != cast.reader {
      ReaderStands(cast, t, cur, e, out, t');
    }
  }

  /** What reaches Scanner is the right verdict from the right inspector. */
  lemma InspectorMail(cast: Cast, t: Shadow, cur: nat, e: Event, out: Outcome, t': Shadow)
    requires InspectorStep(cast, t, cur, e, out, t') && ScannerActs(cast, t)
    ensures var pc, qs, qs' := t.pcs[cast.scanner], t.v.queue[cast.scanner], t'.v.queue[cast.scanner];
            || qs' == qs
            || (pc.SVerdict? && pc.w == cur && qs == [] && t.pcs[cur].ISend? && |qs'| == 1 && VerdictOk(cast, t, pc, qs'[0]))
  {
    OthersStand(cast, t, cur, e, out, t', cast.scanner);
    var i := t.pcs[cur];
    if t'.v.queue[cast.scanner] != t.v.queue[cast.scanner] {
      assert i.ISend? && i.sender == cast.scanner;
      assert InspectorOk(cast, t, cur);
    }
  }

  /** The inspector itself, if it is still at work. */
  lemma InspectorItself(cast: Cast, t: Shadow, cur: nat, e: Event, out: Outcome, t': Shadow)
    requires InspectorStep(cast, t, cur, e, out, t') && Inspects(t', cur) && !t'.pcs[cur].IExit?
    ensures InspectorOk(cast, t', cur)
  {
    InspectorFrame(cast, t, cur, e, out, t');
    assert InspectorOk(cast, t, cur);
    InspectorMail(cast, t, cur, e, out, t');
    InspectorTask(cast, t, cur, e, out, t');
    var pc, i := t.pcs[cast.scanner], t.pcs[cur];
    InspectorRights(cast, t, cur, e, out, t', cur, pc.id);
    if i.IRead? && i.sender == cast.scanner {
      InspectorReads(cast, t, cur, e, out, t');
    }
  }

  /** What it still has from Scanner, or has just taken, is the request to inspect this object. */
  lemma InspectorTask(cast: Cast, t: Shadow, cur: nat, e: Event, out: Outcome, t': Shadow)
    requires InspectorStep(cast, t, cur, e, out, t') && InspectorOk(cast, t, cur)
    ensures var pc := t.pcs[cast.scanner];
            && (forall m :: m in t'.v.queue[cur] && m.sender == cast.scanner ==> pc.SVerdict? && Int32(m.data) == pc.id)
            && (var i' := After(t.pcs[cur], out); i'.IRead? && i'.sender == cast.scanner ==> pc.SVerdict? && i'.id == pc.id)
  {
    assert QueueStep(t.v, cur, e, out, t'.v, cur);
  }

  /** What it makes of the bytes it reads is what the content deserves. */
  lemma InspectorReads(cast: Cast, t: Shadow, cur: nat, e: Event, out: Outcome, t': Shadow)
    requires InspectorStep(cast, t, cur, e, out, t') && InspectorOk(cast, t, cur)
    requires t.pcs[cur].IRead? && t.pcs[cur].sender == cast.scanner
    ensures var i' := After(t.pcs[cur], out); i'.ISend? && (i'.bad <==> Suspicious(cast, t, t.pcs[cast.scanner].id))
  {
    assert ReadOut(t.v, cur, e, out);
    assert Unjudged(cast, t, t.pcs[cast.scanner].id);
  }

  lemma InspectorKeeps(cast: Cast, t: Shadow, cur: nat, e: Event, out: Outcome, t': Shadow)
    requires InspectorStep(cast, t, cur, e, out, t')
    ensures Inv(cast, t')
  {
    RightsKept(cast, t, cur, e, out, t');
    InspectorFrame(cast, t, cur, e, out, t');
    InspectorTurns(cast, t, cur, e, out, t');
    SameItems(cast, t, t');
    assert ReaderOk(cast, t');
    InspectorsAll(cast, t, cur, e, out, t');
  }

  lemma InspectorTurns(cast: Cast, t: Shadow, cur: nat, e: Event, out: Outcome, t': Shadow)
    requires InspectorStep(cast, t, cur, e, out, t')
    ensures TurnsOk(cast, t')
  {
    InspectorFrame(cast, t, cur, e, out, t');
    if ScannerActs(cast, t) {
      InspectorMail(cast, t, cur, e, out, t');
      ChargeStands(cast, t, cur, e, out, t');
    }
    TurnsStand(cast, t, t');
  }

  lemma InspectorsAll(cast: Cast, t: Shadow, cur: nat, e: Event, out: Outcome, t': Shadow)
    requires InspectorStep(cast, t, cur, e, out, t')
    ensures InspectorsOk(cast, t')
  {
    InspectorFrame(cast, t, cur, e, out, t');
    forall s | 0 <= s < |t'.pcs| && Inspects(t', s) && !t'.pcs[s].IExit?
      ensures InspectorOk(cast, t', s)
    {
      if s == cur {
        InspectorItself(cast, t, cur, e, out, t');
      } else {
        OtherInspector(cast, t, cur, e, out, t', s);
      }
    }
  }

  /** While one inspector is at work every other one has only its exit left. */
  lemma OtherInspector(cast: Cast, t: Shadow, cur: nat, e: Event, out: Outcome, t': Shadow, s: nat)
    requires InspectorStep(cast, t, cur, e, out, t') && s != cur && Inspects(t', s) && !t'.pcs[s].IExit?
    ensures InspectorOk(cast, t', s)
  {
    InspectorFrame(cast, t, cur, e, out, t');
    InspectorStands(cast, t, cur, e, out, t', s);
    assert InspectorOk(cast, t, s);
    InspectorMail(cast, t, cur, e, out, t');
    assert Guarded(cast, t, t.pcs[cast.scanner].id);
  }
}
