/** Scanner's steps keep the pipeline's invariant. */
module QuarantineScanner {
  import opened Words
  import opened ActorTable
  import opened Kernel
  import opened Quarantine
  import opened QuarantineView
  import opened QuarantineInvariant
  import opened QuarantineSteps
  import Directory

  ghost predicate ScannerStep(cast: Cast, t: Shadow, e: Event, out: Outcome, t': Shadow) {
    && Before(cast, t, cast.scanner, e, out, t')
    && IsS(t.pcs[cast.scanner]) && Advances(t.pcs[cast.scanner], e)
  }

  /** Of Scanner itself. */
  lemma ScannerItself(cast: Cast, t: Shadow, e: Event, out: Outcome, t': Shadow)
    requires ScannerStep(cast, t, e, out, t')
    ensures ScannerActs(cast, t) && t'.pcs[cast.scanner] == After(t.pcs[cast.scanner], out)
    ensures !t.pcs[cast.scanner].SExit? ==> t'.v.alive[cast.scanner]
    ensures var q, q' := t.v.queue[cast.scanner], t'.v.queue[cast.scanner];
            if out.Received? then q == [out.msg] + q' && (t.pcs[cast.scanner].SWait? || t.pcs[cast.scanner].SVerdict?) else q' == q
  {
    var cur := cast.scanner;
    PcStep(cast, t, cur, e, out, t', cur);
    assert QueueStep(t.v, cur, e, out, t'.v, cur);
    assert ReadOut(t.v, cur, e, out);
  }

  /** Downloader hears from Scanner only at the end of a round. */
  lemma DownloaderHears(cast: Cast, t: Shadow, e: Event, out: Outcome, t': Shadow)
    requires ScannerStep(cast, t, e, out, t')
    ensures DownloaderActs(cast, t') <==> DownloaderActs(cast, t)
    ensures DownloaderActs(cast, t) ==>
              && t'.pcs[cast.downloader] == t.pcs[cast.downloader]
              && (t.pcs[cast.scanner].STellDownloader? || t'.v.queue[cast.downloader] == t.v.queue[cast.downloader])
  {
    PartsStep(cast, t, cast.scanner, e, out, t');
    if DownloaderActs(cast, t) {
      OthersStand(cast, t, cast.scanner, e, out, t', cast.downloader);
    }
  }

  /** Scanner's word to Reader, if any, is about an object it has decided. */
  lemma ReaderMail(cast: Cast, t: Shadow, e: Event, out: Outcome, t': Shadow)
    requires ScannerStep(cast, t, e, out, t') && ReaderActs(cast, t)
    ensures t'.pcs[cast.reader] == t.pcs[cast.reader]
    ensures forall m :: m in t'.v.queue[cast.reader] ==> m in t.v.queue[cast.reader] || Int32(m.data) in t.verdicts
  {
    OthersStand(cast, t, cast.scanner, e, out, t', cast.reader);
  }

  lemma VerdictsGrow(cast: Cast, t: Shadow, e: Event, out: Outcome, t': Shadow)
    requires ScannerStep(cast, t, e, out, t')
    ensures t.verdicts.Keys <= t'.verdicts.Keys
  {
  }

  /** Reader hears from Scanner only about an object it has decided. */
  lemma ReaderHears(cast: Cast, t: Shadow, e: Event, out: Outcome, t': Shadow)
    requires ScannerStep(cast, t, e, out, t')
    ensures ReaderOk(cast, t')
  {
    PartsStep(cast, t, cast.scanner, e, out, t');
    if ReaderActs(cast, t) {
      ReaderMail(cast, t, e, out, t');
      VerdictsGrow(cast, t, e, out, t');
    }
  }

  /** What Scanner's call makes of object id. */
  function JudgedItem(pc: Pc, i: Item, id: int): Item {
    if pc.SReject? && pc.id == id then i.(trust := Directory.REJECTED)
    else if pc.SPromote? && pc.id == id && i.trust < Directory.TRUSTED then i.(trust := i.trust + 1)
    else i
  }

  lemma ScannerItem(cast: Cast, v: View, e: Event, v': View, pc: Pc, id: int)
    requires Sized(v) && Sized(v') && cast.scanner < |v.alive| && Ours(id) && ItemStep(v, cast.scanner, e, v', id)
    requires IsS(pc) && ByProgram(cast, pc, e) && Advances(pc, e)
    requires Capability(CAP_PROMOTE_OBJECT, 0) in v.caps[cast.scanner]
    ensures v'.items[id] == JudgedItem(pc, v.items[id], id)
  {
  }

  lemma ScannerItems(cast: Cast, t: Shadow, e: Event, out: Outcome, t': Shadow)
    requires ScannerStep(cast, t, e, out, t')
    ensures forall id :: Ours(id) ==> t'.v.items[id] == JudgedItem(t.pcs[cast.scanner], t.v.items[id], id)
  {
    assert ScannerActs(cast, t);
    ScannerItem(cast, t.v, e, t'.v, t.pcs[cast.scanner], 0);
    ScannerItem(cast, t.v, e, t'.v, t.pcs[cast.scanner], 1);
  }

  // ---- taking turns -------------------------------------------------------------------------

  lemma WaitTurns(cast: Cast, t: Shadow, e: Event, out: Outcome, t': Shadow)
    requires ScannerStep(cast, t, e, out, t') && (t.pcs[cast.scanner].SWait? || t.pcs[cast.scanner].SExit?)
    ensures TurnsOk(cast, t')
  {
    ScannerItself(cast, t, e, out, t');
    DownloaderHears(cast, t, e, out, t');
    if out.Received? {
      assert t.v.queue[cast.scanner][0] == out.msg;
      SmallIds();
    }
  }

  lemma SmallIds()
    ensures Int32(U64(0)) == 0 && Int32(U64(1)) == 1
  {
  }

  lemma SpawnTurns(cast: Cast, t: Shadow, e: Event, out: Outcome, t': Shadow)
    requires ScannerStep(cast, t, e, out, t') && t.pcs[cast.scanner].SSpawn?
    ensures TurnsOk(cast, t')
  {
    ScannerItself(cast, t, e, out, t');
    DownloaderHears(cast, t, e, out, t');
    if Child(e, out) >= 0 {
      PcStep(cast, t, cast.scanner, e, out, t', Child(e, out));
    }
  }

  lemma SuperviseTurns(cast: Cast, t: Shadow, e: Event, out: Outcome, t': Shadow)
    requires ScannerStep(cast, t, e, out, t') && Supervises(t.pcs[cast.scanner])
    ensures TurnsOk(cast, t')
  {
    ScannerItself(cast, t, e, out, t');
    DownloaderHears(cast, t, e, out, t');
    PcStep(cast, t, cast.scanner, e, out, t', t.pcs[cast.scanner].w);
  }

  lemma JudgeTurns(cast: Cast, t: Shadow, e: Event, out: Outcome, t': Shadow)
    requires ScannerStep(cast, t, e, out, t')
    requires var pc := t.pcs[cast.scanner]; pc.SReject? || pc.SPromote? || pc.STellReader? || pc.STellDownloader?
    ensures TurnsOk(cast, t')
  {
    if t.pcs[cast.scanner].STellDownloader? {
      RoundEnds(cast, t, e, out, t');
    } else {
      ScannerItself(cast, t, e, out, t');
      DownloaderHears(cast, t, e, out, t');
      StillScanning(cast, t, t');
    }
  }

  /** Between the verdict and the acknowledgement nothing is left to supervise. */
  lemma StillScanning(cast: Cast, t: Shadow, t': Shadow)
    requires Shaped(cast, t) && Shaped(cast, t') && |t'.pcs| == |t.pcs| && TurnsOk(cast, t) && ScannerActs(cast, t) && ScannerActs(cast, t')
    requires var pc := t.pcs[cast.scanner]; pc.SReject? || pc.SPromote? || pc.STellReader?
    requires t'.pcs[cast.scanner] == After(t.pcs[cast.scanner], Suspended) && t'.v.queue[cast.scanner] == t.v.queue[cast.scanner]
    requires DownloaderActs(cast, t') <==> DownloaderActs(cast, t)
    requires DownloaderActs(cast, t) ==>
               t'.pcs[cast.downloader] == t.pcs[cast.downloader] && t'.v.queue[cast.downloader] == t.v.queue[cast.downloader]
    ensures TurnsOk(cast, t')
  {
  }

  /** The acknowledgement goes out, and Scanner waits for the next object or exits. */
  lemma RoundEnds(cast: Cast, t: Shadow, e: Event, out: Outcome, t': Shadow)
    requires ScannerStep(cast, t, e, out, t') && t.pcs[cast.scanner].STellDownloader?
    ensures TurnsOk(cast, t')
  {
    ScannerItself(cast, t, e, out, t');
    DownloaderHears(cast, t, e, out, t');
  }

  lemma ScannerTurns(cast: Cast, t: Shadow, e: Event, out: Outcome, t': Shadow)
    requires ScannerStep(cast, t, e, out, t')
    ensures TurnsOk(cast, t')
  {
    var pc := t.pcs[cast.scanner];
    if pc.SWait? || pc.SExit? {
      WaitTurns(cast, t, e, out, t');
    } else if pc.SSpawn? {
      SpawnTurns(cast, t, e, out, t');
    } else if Supervises(pc) {
      SuperviseTurns(cast, t, e, out, t');
    } else {
      JudgeTurns(cast, t, e, out, t');
    }
  }

  // ---- inspectors ----------------------------------------------------------------------------

  /** Outside a scan, or once the verdict is in, no inspector is at work. */
  lemma NoneAtWork(cast: Cast, t: Shadow, e: Event, out: Outcome, t': Shadow)
    requires ScannerStep(cast, t, e, out, t') && Child(e, out) < 0
    requires !Supervises(t.pcs[cast.scanner]) || t.v.queue[cast.scanner] != []
    ensures InspectorsOk(cast, t')
  {
    PartsStep(cast, t, cast.scanner, e, out, t');
    forall s | 0 <= s < |t'.pcs| && Inspects(t', s)
      ensures t'.pcs[s].IExit?
    {
      PcStep(cast, t, cast.scanner, e, out, t', s);
    }
  }

  /** A new inspector starts with an empty mailbox and nothing but the right to answer. */
  lemma InspectorStarts(cast: Cast, t: Shadow, e: Event, out: Outcome, t': Shadow)
    requires ScannerStep(cast, t, e, out, t') && t.pcs[cast.scanner].SSpawn? && Child(e, out) >= 0
    ensures InspectorsOk(cast, t')
  {
    ScannerItself(cast, t, e, out, t');
    PartsStep(cast, t, cast.scanner, e, out, t');
    var w := Child(e, out);
    PcStep(cast, t, cast.scanner, e, out, t', w);
    assert QueueStep(t.v, cast.scanner, e, out, t'.v, w);
    assert CapsStep(t.v, cast.scanner, e, out, t'.v, w);
    forall s | 0 <= s < |t'.pcs| && Inspects(t', s) && !t'.pcs[s].IExit?
      ensures s == w
    {
      PcStep(cast, t, cast.scanner, e, out, t', s);
    }
  }

  /** Scanner's one request names the object. */
  lemma RequestMail(cast: Cast, t: Shadow, e: Event, out: Outcome, t': Shadow, s: nat)
    requires ScannerStep(cast, t, e, out, t') && Supervises(t.pcs[cast.scanner])
    requires s != cast.scanner && Inspects(t, s)
    ensures forall m :: m in t'.v.queue[s] ==>
              m in t.v.queue[s] || (t.pcs[cast.scanner].SAsk? && Int32(m.data) == t.pcs[cast.scanner].id)
  {
    SmallIds();
    assert QueueStep(t.v, cast.scanner, e, out, t'.v, s);
  }

  /** After the grant the inspector may read exactly if the grant was not refused. */
  lemma GrantedRight(cast: Cast, t: Shadow, e: Event, out: Outcome, t': Shadow, s: nat)
    requires ScannerStep(cast, t, e, out, t') && Supervises(t.pcs[cast.scanner])
    requires Inspects(t, s) && InspectorOk(cast, t, s) && t'.v.alive[s]
    ensures Capability(CAP_READ_OBJECT, t.pcs[cast.scanner].id) in t'.v.caps[s] <==> t.pcs[cast.scanner].id !in t'.refused
  {
    var pc := t.pcs[cast.scanner];
    assert CapsStep(t.v, cast.scanner, e, out, t'.v, s);
    if pc.SGrant? {
      assert GuardedAt(pc, pc.id, false);
    }
  }

  /** The inspector under supervision, while Scanner grants, asks and waits. */
  lemma InspectorServes(cast: Cast, t: Shadow, e: Event, out: Outcome, t': Shadow, s: nat)
    requires ScannerStep(cast, t, e, out, t') && Supervises(t.pcs[cast.scanner]) && t.v.queue[cast.scanner] == []
    requires Inspects(t', s) && !t'.pcs[s].IExit?
    ensures InspectorOk(cast, t', s)
  {
    ScannerItself(cast, t, e, out, t');
    PartsStep(cast, t, cast.scanner, e, out, t');
    PcStep(cast, t, cast.scanner, e, out, t', s);
    assert InspectorOk(cast, t, s);
    RequestMail(cast, t, e, out, t', s);
    GrantedRight(cast, t, e, out, t', s);
    ServedOk(cast, t, out, t', s);
  }

  lemma ServedOk(cast: Cast, t: Shadow, out: Outcome, t': Shadow, s: nat)
    requires Shaped(cast, t) && Shaped(cast, t') && |t.pcs| == |t'.pcs| && s < |t.pcs|
    requires ScannerActs(cast, t) && ScannerActs(cast, t') && InspectorOk(cast, t, s) && t'.pcs[s] == t.pcs[s]
    requires t'.pcs[cast.scanner] == After(t.pcs[cast.scanner], out) && !out.Received? && t'.v.queue[cast.scanner] == []
    requires forall m :: m in t'.v.queue[s] ==>
               m in t.v.queue[s] || (t.pcs[cast.scanner].SAsk? && Int32(m.data) == t.pcs[cast.scanner].id)
    requires Capability(CAP_READ_OBJECT, t.pcs[cast.scanner].id) in t'.v.caps[s] <==> t.pcs[cast.scanner].id !in t'.refused
    requires !t.pcs[cast.scanner].SGrant? ==> t'.refused == t.refused
    ensures InspectorOk(cast, t', s)
  {
  }

  lemma ScannerInspectors(cast: Cast, t: Shadow, e: Event, out: Outcome, t': Shadow)
    requires ScannerStep(cast, t, e, out, t')
    ensures InspectorsOk(cast, t')
  {
    var pc := t.pcs[cast.scanner];
    if Child(e, out) >= 0 {
      InspectorStarts(cast, t, e, out, t');
    } else if !Supervises(pc) || t.v.queue[cast.scanner] != [] {
      NoneAtWork(cast, t, e, out, t');
    } else {
      forall s | 0 <= s < |t'.pcs| && Inspects(t', s) && !t'.pcs[s].IExit?
        ensures InspectorOk(cast, t', s)
      {
        InspectorServes(cast, t, e, out, t', s);
      }
    }
  }

  // ---- objects ----------------------------------------------------------------------------------

  /** All of a Scanner step that matters to the objects. */
  ghost predicate ScannerFacts(cast: Cast, t: Shadow, e: Event, out: Outcome, t': Shadow) {
    && Shaped(cast, t) && Shaped(cast, t') && ScannerActs(cast, t) && Advances(t.pcs[cast.scanner], e)
    && t'.pcs[cast.scanner] == After(t.pcs[cast.scanner], out)
    && (DownloaderActs(cast, t') <==> DownloaderActs(cast, t))
    && (DownloaderActs(cast, t) ==> t'.pcs[cast.downloader] == t.pcs[cast.downloader])
    && (var q, q' := t.v.queue[cast.scanner], t'.v.queue[cast.scanner];
        if out.Received? then q == [out.msg] + q' else q' == q)
    && (forall id :: Ours(id) ==> t'.v.items[id] == JudgedItem(t.pcs[cast.scanner], t.v.items[id], id))
    && t'.refused == NextRefused(t.refused, t.pcs[cast.scanner], e, out)
    && t'.verdicts == NextVerdicts(t.verdicts, t.pcs[cast.scanner], e)
  }

  lemma FactsOf(cast: Cast, t: Shadow, e: Event, out: Outcome, t': Shadow)
    requires ScannerStep(cast, t, e, out, t')
    ensures ScannerFacts(cast, t, e, out, t')
  {
    ScannerItself(cast, t, e, out, t');
    DownloaderHears(cast, t, e, out, t');
    ScannerItems(cast, t, e, out, t');
  }

  /** Before the verdict is carried out. */
  lemma ScanObjects(cast: Cast, t: Shadow, e: Event, out: Outcome, t': Shadow)
    requires ScannerFacts(cast, t, e, out, t') && TurnsOk(cast, t) && ScanItem(cast, t)
    requires var pc := t.pcs[cast.scanner]; pc.SWait? || pc.SSpawn? || Supervises(pc) || pc.SExit?
    ensures ScanItem(cast, t')
  {
    var pc := t.pcs[cast.scanner];
    if pc.SWait? && out.Received? {
      assert t.v.queue[cast.scanner][0] == out.msg;
      SmallIds();
    }
    if pc.SVerdict? && out.Received? {
      assert t.v.queue[cast.scanner][0] == out.msg;
    }
  }

  lemma JudgeObjects(cast: Cast, t: Shadow, e: Event, out: Outcome, t': Shadow)
    requires ScannerFacts(cast, t, e, out, t') && TurnsOk(cast, t) && ScanItem(cast, t)
    requires var pc := t.pcs[cast.scanner]; pc.SReject? || pc.SPromote? || pc.STellReader? || pc.STellDownloader?
    ensures ScanItem(cast, t')
  {
  }

  lemma ScannerVerdicts(cast: Cast, t: Shadow, e: Event, out: Outcome, t': Shadow)
    requires ScannerFacts(cast, t, e, out, t') && TurnsOk(cast, t) && ScanItem(cast, t) && VerdictsOk(cast, t)
    ensures VerdictsOk(cast, t')
  {
    var pc := t.pcs[cast.scanner];
    forall id | id in t'.verdicts
      ensures Ours(id) && !Undecided(cast, t', id)
      ensures t'.v.items[id] == Item(Content(cast, id), FinalTrust(t'.verdicts[id]))
      ensures t'.verdicts[id] <==> !Suspicious(cast, t', id)
    {
      if id in t.verdicts {
        assert !Undecided(cast, t, id);
      }
    }
  }

  lemma ScannerTrust(cast: Cast, t: Shadow, e: Event, out: Outcome, t': Shadow, id: int)
    requires ScannerFacts(cast, t, e, out, t') && TurnsOk(cast, t) && ScanItem(cast, t) && Ours(id) && TrustOk(t, id)
    ensures TrustOk(t', id)
  {
  }

  lemma ScannerKeeps(cast: Cast, t: Shadow, e: Event, out: Outcome, t': Shadow)
    requires ScannerStep(cast, t, e, out, t')
    ensures Inv(cast, t')
  {
    RightsKept(cast, t, cast.scanner, e, out, t');
    ScannerTurns(cast, t, e, out, t');
    ScannerInspectors(cast, t, e, out, t');
    FactsOf(cast, t, e, out, t');
    var pc := t.pcs[cast.scanner];
    if pc.SReject? || pc.SPromote? || pc.STellReader? || pc.STellDownloader? {
      JudgeObjects(cast, t, e, out, t');
    } else {
      ScanObjects(cast, t, e, out, t');
    }
    ScannerVerdicts(cast, t, e, out, t');
    ScannerTrust(cast, t, e, out, t', 0);
    ScannerTrust(cast, t, e, out, t', 1);
    ReaderHears(cast, t, e, out, t');
  }
}
