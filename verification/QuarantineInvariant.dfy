/** The pipeline's invariant, on the view of the kernel and the actors' program counters. */
module QuarantineInvariant {
  import opened Words
  import opened ActorTable
  import opened Kernel
  import opened Quarantine
  import opened QuarantineView
  import Directory

  datatype Shadow = Shadow(v: View, pcs: seq<Pc>, refused: set<int>, verdicts: map<int, bool>)

  predicate CastOk(cast: Cast, n: nat) {
    && cast.downloader < n && cast.scanner < n && cast.reader < n
    && cast.downloader != cast.scanner && cast.scanner != cast.reader && cast.reader != cast.downloader
    && |cast.payload| <= Directory.OBJECT_MAX_BYTES && |cast.suspicious| <= Directory.OBJECT_MAX_BYTES
  }

  predicate Shaped(cast: Cast, t: Shadow) {
    Sized(t.v) && |t.pcs| == |t.v.alive| && CastOk(cast, |t.pcs|)
  }

  /** The running actor follows its program, if it has one. */
  predicate ByProgram(cast: Cast, pc: Pc, e: Event) {
    || pc.Other? || e.Timer? || e == SysDevice(0)
    || e == Call(cast, pc) || (e.Resume? && Call(cast, pc).SysReceive?)
  }

  ghost predicate ShadowStep(cast: Cast, t: Shadow, cur: nat, e: Event, out: Outcome, t': Shadow) {
    && Shaped(cast, t) && Shaped(cast, t') && ViewStep(t.v, cur, e, out, t'.v)
    && ByProgram(cast, t.pcs[cur], e)
    && t'.pcs == NextPcs(t.pcs, cur, e, out)
    && t'.refused == NextRefused(t.refused, t.pcs[cur], e, out)
    && t'.verdicts == NextVerdicts(t.verdicts, t.pcs[cur], e)
  }

  // ---- who is acting -----------------------------------------------------------------

  predicate ScannerActs(cast: Cast, t: Shadow)
    requires Shaped(cast, t)
  {
    t.v.alive[cast.scanner] && IsS(t.pcs[cast.scanner])
  }

  predicate DownloaderActs(cast: Cast, t: Shadow)
    requires Shaped(cast, t)
  {
    t.v.alive[cast.downloader] && IsD(t.pcs[cast.downloader])
  }

  predicate ReaderActs(cast: Cast, t: Shadow)
    requires Shaped(cast, t)
  {
    t.v.alive[cast.reader] && IsR(t.pcs[cast.reader])
  }

  predicate Inspects(t: Shadow, s: int) {
    0 <= s < |t.pcs| == |t.v.alive| && t.v.alive[s] && IsI(t.pcs[s])
  }

  /** Nothing is left for Downloader to do but to exit. */
  predicate DownloaderDone(cast: Cast, t: Shadow)
    requires Shaped(cast, t)
  {
    DownloaderActs(cast, t) ==> t.pcs[cast.downloader].DExit?
  }

  predicate RolesOk(cast: Cast, t: Shadow) {
    forall s :: 0 <= s < |t.pcs| ==>
      && (IsD(t.pcs[s]) ==> s == cast.downloader)
      && (IsS(t.pcs[s]) ==> s == cast.scanner)
      && (IsR(t.pcs[s]) ==> s == cast.reader)
  }

  /** Two rounds, and object id is the business of round id. */
  predicate ScannerSane(cast: Cast, t: Shadow)
    requires Shaped(cast, t)
  {
    ScannerActs(cast, t) ==>
      var pc := t.pcs[cast.scanner];
      pc.SExit? || (pc.round <= 1 && (Scanning(pc) ==> pc.id == pc.round))
  }

  // ---- who may do what ------------------------------------------------------------------

  /** Scanner is between spawning inspector w and taking its verdict. */
  predicate Supervises(pc: Pc) {
    pc.SGrant? || pc.SAsk? || pc.SVerdict?
  }

  /** By where Scanner is: object id's turn is still to come, or its inspector is in place. */
  predicate GuardedAt(pc: Pc, id: int, inPlace: bool)
    requires IsS(pc)
  {
    if pc.SExit? then false
    else if pc.SWait? || pc.SSpawn? || pc.SGrant? then id >= pc.round
    else id > pc.round || (id == pc.round && inPlace)
  }

  predicate InPlace(t: Shadow, pc: Pc) {
    (pc.SAsk? || pc.SVerdict?) && Inspects(t, pc.w)
  }

  /** The right to read object id has not yet gone to anybody but the pipeline. */
  predicate Guarded(cast: Cast, t: Shadow, id: int)
    requires Shaped(cast, t)
  {
    ScannerActs(cast, t) && GuardedAt(t.pcs[cast.scanner], id, InPlace(t, t.pcs[cast.scanner]))
  }

  predicate Permitted(cast: Cast, t: Shadow, s: nat, c: Capability)
    requires Shaped(cast, t) && s < |t.pcs|
  {
    var pc := t.pcs[s];
    && (c == Capability(CAP_SEND, cast.scanner) && ScannerActs(cast, t) ==> IsD(pc) || IsI(pc))
    && (c == Capability(CAP_SEND, cast.downloader) && DownloaderActs(cast, t) ==> IsS(pc))
    && (c == Capability(CAP_SEND, cast.reader) && ReaderActs(cast, t) ==> IsS(pc))
    && (c == Capability(CAP_TERMINATE, cast.scanner) ==> !ScannerActs(cast, t))
    && (c == Capability(CAP_TERMINATE, cast.downloader) ==> !DownloaderActs(cast, t))
    && (c == Capability(CAP_TERMINATE, cast.reader) ==> !ReaderActs(cast, t))
    && (c == Capability(CAP_PROMOTE_OBJECT, 0) ==> IsS(pc))
    && (c.op == CAP_WRITE_OBJECT && Ours(c.target) ==> IsD(pc))
    && (c.op == CAP_DELETE_OBJECT ==> !Ours(c.target))
    && (c.op == CAP_READ_OBJECT && Ours(c.target) && Guarded(cast, t, c.target) ==> !pc.Other?)
  }

  ghost predicate HoldersOk(cast: Cast, t: Shadow)
    requires Shaped(cast, t)
  {
    && (forall s, c :: 0 <= s < |t.pcs| && c in t.v.caps[s] ==> Permitted(cast, t, s, c))
    && (forall s :: 0 <= s < |t.pcs| && !t.v.alive[s] ==> t.v.caps[s] == {})
    && (ScannerActs(cast, t) ==>
          && Capability(CAP_PROMOTE_OBJECT, 0) in t.v.caps[cast.scanner]
          && Capability(CAP_READ_OBJECT, 0) in t.v.caps[cast.scanner]
          && Capability(CAP_READ_OBJECT, 1) in t.v.caps[cast.scanner])
    && (DownloaderActs(cast, t) ==>
          && Capability(CAP_WRITE_OBJECT, 0) in t.v.caps[cast.downloader]
          && Capability(CAP_WRITE_OBJECT, 1) in t.v.caps[cast.downloader])
  }

  lemma AfterKeepsRole(pc: Pc, out: Outcome)
    requires !pc.Other?
    ensures var pc' := After(pc, out);
            (IsD(pc') <==> IsD(pc)) && (IsS(pc') <==> IsS(pc)) && (IsR(pc') <==> IsR(pc)) && (IsI(pc') <==> IsI(pc)) && !pc'.Other?
  {
  }

  /** What the step makes of slot s's program counter. */
  lemma PcStep(cast: Cast, t: Shadow, cur: nat, e: Event, out: Outcome, t': Shadow, s: nat)
    requires ShadowStep(cast, t, cur, e, out, t') && s < |t.pcs|
    ensures t'.pcs[s] == if s == Child(e, out) then (if t.pcs[cur].SSpawn? then IWait else Other)
                         else if s == cur && Advances(t.pcs[cur], e) then After(t.pcs[cur], out)
                         else t.pcs[s]
    ensures s != Child(e, out) ==>
              && (IsD(t'.pcs[s]) <==> IsD(t.pcs[s])) && (IsS(t'.pcs[s]) <==> IsS(t.pcs[s]))
              && (IsR(t'.pcs[s]) <==> IsR(t.pcs[s])) && (IsI(t'.pcs[s]) <==> IsI(t.pcs[s]))
              && (t'.pcs[s].Other? <==> t.pcs[s].Other?)
  {
    if Advances(t.pcs[cur], e) {
      AfterKeepsRole(t.pcs[cur], out);
    }
  }

  /** Nobody starts acting a part anew, and only Scanner brings in inspectors. */
  lemma PartsStep(cast: Cast, t: Shadow, cur: nat, e: Event, out: Outcome, t': Shadow)
    requires ShadowStep(cast, t, cur, e, out, t') && RolesOk(cast, t)
    ensures RolesOk(cast, t')
    ensures ScannerActs(cast, t') ==> ScannerActs(cast, t)
    ensures DownloaderActs(cast, t') ==> DownloaderActs(cast, t)
    ensures ReaderActs(cast, t') ==> ReaderActs(cast, t)
    ensures forall s :: 0 <= s < |t.pcs| && Inspects(t', s) ==> Inspects(t, s) || (s == Child(e, out) && t.pcs[cur].SSpawn?)
  {
    RolesStep(cast, t, cur, e, out, t');
    PcStep(cast, t, cur, e, out, t', cast.scanner);
    PcStep(cast, t, cur, e, out, t', cast.downloader);
    PcStep(cast, t, cur, e, out, t', cast.reader);
  }

  lemma RolesStep(cast: Cast, t: Shadow, cur: nat, e: Event, out: Outcome, t': Shadow)
    requires ShadowStep(cast, t, cur, e, out, t') && RolesOk(cast, t)
    ensures RolesOk(cast, t')
    ensures forall s :: 0 <= s < |t.pcs| && Inspects(t', s) ==> Inspects(t, s) || (s == Child(e, out) && t.pcs[cur].SSpawn?)
  {
    forall s | 0 <= s < |t.pcs|
      ensures (IsD(t'.pcs[s]) ==> s == cast.downloader) && (IsS(t'.pcs[s]) ==> s == cast.scanner) && (IsR(t'.pcs[s]) ==> s == cast.reader)
      ensures Inspects(t', s) ==> Inspects(t, s) || (s == Child(e, out) && t.pcs[cur].SSpawn?)
    {
      PcStep(cast, t, cur, e, out, t', s);
    }
  }

  lemma AfterGuarded(pc: Pc, out: Outcome, id: int, b: bool, b': bool)
    requires IsS(pc) && IsS(After(pc, out)) && (pc.SWait? ==> pc.round <= 1) && Ours(id)
    requires GuardedAt(After(pc, out), id, b') && (b' ==> b || pc.SGrant?) && (b' ==> pc.SGrant? || pc.SAsk? || pc.SVerdict?)
    ensures GuardedAt(pc, id, b)
  {
  }

  lemma GuardedBefore(cast: Cast, t: Shadow, cur: nat, e: Event, out: Outcome, t': Shadow, id: int)
    requires ShadowStep(cast, t, cur, e, out, t') && RolesOk(cast, t) && Guarded(cast, t', id) && Ours(id)
    requires ScannerSane(cast, t)
    ensures Guarded(cast, t, id)
  {
    PartsStep(cast, t, cur, e, out, t');
    PcStep(cast, t, cur, e, out, t', cast.scanner);
    var pc, pc' := t.pcs[cast.scanner], t'.pcs[cast.scanner];
    InPlaceBefore(cast, t, cur, e, out, t');
    if pc' != pc {
      AfterGuarded(pc, out, id, InPlace(t, pc), InPlace(t', pc'));
    }
  }

  lemma InPlaceBefore(cast: Cast, t: Shadow, cur: nat, e: Event, out: Outcome, t': Shadow)
    requires ShadowStep(cast, t, cur, e, out, t') && RolesOk(cast, t) && ScannerActs(cast, t) && ScannerActs(cast, t')
    ensures var pc, pc' := t.pcs[cast.scanner], t'.pcs[cast.scanner];
            InPlace(t', pc') ==> pc.SGrant? || InPlace(t, pc)
  {
    PartsStep(cast, t, cur, e, out, t');
    PcStep(cast, t, cur, e, out, t', cast.scanner);
  }

  lemma KeptPermitted(cast: Cast, t: Shadow, cur: nat, e: Event, out: Outcome, t': Shadow, s: nat, c: Capability)
    requires ShadowStep(cast, t, cur, e, out, t') && RolesOk(cast, t)
    requires ScannerSane(cast, t)
    requires s < |t.pcs| && s != Child(e, out) && Permitted(cast, t, s, c)
    ensures Permitted(cast, t', s, c)
  {
    PartsStep(cast, t, cur, e, out, t');
    PcStep(cast, t, cur, e, out, t', s);
    if Ours(c.target) && Guarded(cast, t', c.target) {
      GuardedBefore(cast, t, cur, e, out, t', c.target);
    }
  }

  /** A new capability is one its receiver may have. */
  lemma NewPermitted(cast: Cast, t: Shadow, cur: nat, e: Event, out: Outcome, t': Shadow, s: nat, c: Capability)
    requires ShadowStep(cast, t, cur, e, out, t') && RolesOk(cast, t) && HoldersOk(cast, t)
    requires ScannerSane(cast, t)
    requires s < |t.pcs| && NewCap(t.v, cur, e, out, s, c)
    ensures Permitted(cast, t', s, c)
  {
    if e.SysGrant? {
      GrantPermitted(cast, t, cur, e, out, t', s, c);
    } else if Child(e, out) >= 0 {
      ChildPermitted(cast, t, cur, e, out, t', s, c);
    }
  }

  /** Of the programs, only Scanner's spawns. */
  lemma OnlyScannerSpawns(cast: Cast, pc: Pc, e: Event)
    requires ByProgram(cast, pc, e) && (e.SysSpawn? || e.SysSpawnProgram?)
    ensures pc.Other? || pc.SSpawn?
  {
  }

  lemma ChildPermitted(cast: Cast, t: Shadow, cur: nat, e: Event, out: Outcome, t': Shadow, s: nat, c: Capability)
    requires ShadowStep(cast, t, cur, e, out, t') && RolesOk(cast, t)
    requires s < |t.pcs| && Child(e, out) >= 0 && NewCap(t.v, cur, e, out, s, c)
    ensures Permitted(cast, t', s, c)
  {
    PartsStep(cast, t, cur, e, out, t');
    PcStep(cast, t, cur, e, out, t', Child(e, out));
    PcStep(cast, t, cur, e, out, t', cur);
    OnlyScannerSpawns(cast, t.pcs[cur], e);
  }

  /** An actor outside the pipeline holds nothing it must not pass on. */
  lemma OtherGrantPermitted(cast: Cast, t: Shadow, cur: nat, e: Event, out: Outcome, t': Shadow, s: nat, c: Capability)
    requires ShadowStep(cast, t, cur, e, out, t') && RolesOk(cast, t) && ScannerSane(cast, t)
    requires s < |t.pcs| && t.pcs[cur].Other? && Permitted(cast, t, cur, c)
    ensures Permitted(cast, t', s, c)
  {
    PartsStep(cast, t, cur, e, out, t');
    if Ours(c.target) && Guarded(cast, t', c.target) {
      GuardedBefore(cast, t, cur, e, out, t', c.target);
    }
  }

  /** Scanner passes on the right to read, and from then on guards it only if it went to an inspector. */
  lemma ScannerGrantPermitted(cast: Cast, t: Shadow, cur: nat, e: Event, out: Outcome, t': Shadow, s: nat, c: Capability)
    requires ShadowStep(cast, t, cur, e, out, t') && RolesOk(cast, t) && ScannerSane(cast, t)
    requires s < |t.pcs| && !t.pcs[cur].Other? && e == SysGrant(s, c.op, c.target)
    ensures Permitted(cast, t', s, c)
  {
    PartsStep(cast, t, cur, e, out, t');
    PcStep(cast, t, cur, e, out, t', s);
    assert e == Call(cast, t.pcs[cur]);
    PcStep(cast, t, cur, e, out, t', cast.scanner);
  }

  lemma GrantPermitted(cast: Cast, t: Shadow, cur: nat, e: Event, out: Outcome, t': Shadow, s: nat, c: Capability)
    requires ShadowStep(cast, t, cur, e, out, t') && RolesOk(cast, t) && HoldersOk(cast, t)
    requires ScannerSane(cast, t)
    requires s < |t.pcs| && e == SysGrant(s, c.op, c.target) && c in t.v.caps[cur]
    ensures Permitted(cast, t', s, c)
  {
    assert Permitted(cast, t, cur, c);
    if t.pcs[cur].Other? {
      OtherGrantPermitted(cast, t, cur, e, out, t', s, c);
    } else {
      ScannerGrantPermitted(cast, t, cur, e, out, t', s, c);
    }
  }

  lemma HoldersStep(cast: Cast, t: Shadow, cur: nat, e: Event, out: Outcome, t': Shadow)
    requires ShadowStep(cast, t, cur, e, out, t') && RolesOk(cast, t) && HoldersOk(cast, t)
    requires ScannerSane(cast, t)
    ensures HoldersOk(cast, t')
  {
    forall s, c | 0 <= s < |t.pcs| && c in t'.v.caps[s]
      ensures Permitted(cast, t', s, c)
    {
      assert CapsStep(t.v, cur, e, out, t'.v, s);
      if c in t.v.caps[s] {
        KeptPermitted(cast, t, cur, e, out, t', s, c);
      } else {
        NewPermitted(cast, t, cur, e, out, t', s, c);
      }
    }
    forall s | 0 <= s < |t.pcs|
      ensures !t'.v.alive[s] ==> t'.v.caps[s] == {}
      ensures t'.v.alive[s] ==> t.v.caps[s] <= t'.v.caps[s]
    {
      assert CapsStep(t.v, cur, e, out, t'.v, s);
    }
    PartsStep(cast, t, cur, e, out, t');
  }

  // ---- the protocol ------------------------------------------------------------------------

  function DoneMessage(cast: Cast, id: int): Message {
    Message(MSG_DOWNLOAD_DONE, cast.downloader, U64(id))
  }

  /** The inspector can read object id and will find the marker in it. */
  predicate Suspicious(cast: Cast, t: Shadow, id: int) {
    id !in t.refused && Marked(Inspected(Content(cast, id)))
  }

  predicate VerdictOk(cast: Cast, t: Shadow, pc: Pc, m: Message)
    requires pc.SVerdict?
  {
    && m.sender == pc.w && m.data == U64(pc.id)
    && m.mtype == if Suspicious(cast, t, pc.id) then MSG_CHECK_FAIL else MSG_CHECK_PASS
  }

  /** Scanner's mailbox while it works on an object: empty, but for the verdict it waits for. */
  predicate ScanQueue(cast: Cast, t: Shadow, pc: Pc, q: seq<Message>) {
    q == [] || (pc.SVerdict? && |q| == 1 && VerdictOk(cast, t, pc, q[0]))
  }

  /** Scanner and Downloader take turns. */
  predicate TurnsOk(cast: Cast, t: Shadow)
    requires Shaped(cast, t)
  {
    if !ScannerActs(cast, t) then DownloaderDone(cast, t)
    else
      var pc, d := t.pcs[cast.scanner], t.pcs[cast.downloader];
      var qs, qd := t.v.queue[cast.scanner], t.v.queue[cast.downloader];
      if pc == SWait(0) then
        && DownloaderActs(cast, t) && qd == []
        && (((d == DWrite(0) || d == DSend(0)) && qs == []) || (d.DAck? && (qs == [] || qs == [DoneMessage(cast, 0)])))
      else if pc == SWait(1) then
        || (DownloaderActs(cast, t) && (d.DAck? || d == DWrite(1) || d == DSend(1)) && qs == [])
        || (DownloaderDone(cast, t) && (qs == [] || qs == [DoneMessage(cast, 1)]))
      else if pc.SExit? then DownloaderDone(cast, t)
      else
        && Scanning(pc) && pc.id == pc.round <= 1
        && (pc.round == 0 ==> DownloaderActs(cast, t) && d.DAck? && qd == [])
        && (pc.round == 1 ==> DownloaderDone(cast, t))
        && ScanQueue(cast, t, pc, qs)
        && (Supervises(pc) ==> 0 <= pc.w < |t.pcs| && pc.w != cast.scanner && !IsD(t.pcs[pc.w]) && !IsR(t.pcs[pc.w]))
        && (pc.SPromote? ==> 1 <= pc.left <= 3)
  }

  /** An inspector still at work is the one Scanner waits for, and answers only Scanner's own request. */
  predicate InspectorOk(cast: Cast, t: Shadow, s: nat)
    requires Shaped(cast, t) && s < |t.pcs|
  {
    ScannerActs(cast, t) &&
    var pc, i := t.pcs[cast.scanner], t.pcs[s];
    && Supervises(pc) && pc.w == s && t.v.queue[cast.scanner] == []
    && (forall m :: m in t.v.queue[s] && m.sender == cast.scanner ==> pc.SVerdict? && Int32(m.data) == pc.id)
    && (i.IRead? && i.sender == cast.scanner ==> pc.SVerdict? && i.id == pc.id)
    && (i.ISend? && i.sender == cast.scanner ==> pc.SVerdict? && i.id == pc.id && (i.bad <==> Suspicious(cast, t, pc.id)))
    && (Capability(CAP_READ_OBJECT, pc.id) in t.v.caps[s] <==> !pc.SGrant? && pc.id !in t.refused)
  }

  predicate InspectorsOk(cast: Cast, t: Shadow)
    requires Shaped(cast, t)
  {
    forall s :: 0 <= s < |t.pcs| && Inspects(t, s) && !t.pcs[s].IExit? ==> InspectorOk(cast, t, s)
  }

  /** Downloader has written object id and Scanner has not yet judged it. */
  predicate Unjudged(cast: Cast, t: Shadow, id: int)
    requires Shaped(cast, t) && Ours(id)
  {
    t.v.items[id] == Item(Content(cast, id), Directory.UNTRUSTED)
  }

  predicate ScanItem(cast: Cast, t: Shadow)
    requires Shaped(cast, t)
  {
    ScannerActs(cast, t) ==>
      var pc, d := t.pcs[cast.scanner], t.pcs[cast.downloader];
      && (pc == SWait(0) && (d == DSend(0) || d.DAck?) ==> Unjudged(cast, t, 0))
      && (pc == SWait(1) && (d == DSend(1) || DownloaderDone(cast, t)) ==> Unjudged(cast, t, 1))
      && (Scanning(pc) && Ours(pc.id) ==>
            && (pc.SSpawn? || Supervises(pc) || pc.SReject? ==> Unjudged(cast, t, pc.id))
            && (pc.SReject? ==> Suspicious(cast, t, pc.id))
            && (pc.SPromote? && pc.left <= 3 ==>
                  !Suspicious(cast, t, pc.id) && t.v.items[pc.id] == Item(Content(cast, pc.id), 3 - pc.left))
            && (pc.STellReader? || pc.STellDownloader? ==> pc.id in t.verdicts))
      && (forall id :: id in t.refused ==> !GuardedAt(pc, id, false))
  }

  /** Scanner may still judge object id. */
  predicate Undecided(cast: Cast, t: Shadow, id: int)
    requires Shaped(cast, t)
  {
    ScannerActs(cast, t) &&
    var pc := t.pcs[cast.scanner];
    if pc.SExit? then false
    else if pc.STellReader? || pc.STellDownloader? then id > pc.round
    else id >= pc.round
  }

  function FinalTrust(promoted: bool): nat {
    if promoted then Directory.TRUSTED else Directory.REJECTED
  }

  predicate VerdictsOk(cast: Cast, t: Shadow)
    requires Shaped(cast, t)
  {
    forall id :: id in t.verdicts ==>
      && Ours(id) && !Undecided(cast, t, id)
      && t.v.items[id] == Item(Content(cast, id), FinalTrust(t.verdicts[id]))
      && (t.verdicts[id] <==> !Suspicious(cast, t, id))
  }

  /** Whatever has been promoted was inspected and found clean, unless the inspector was kept from reading it. */
  predicate TrustOk(t: Shadow, id: int)
    requires Sized(t.v) && Ours(id)
  {
    1 <= t.v.items[id].trust <= Directory.TRUSTED ==> id in t.refused || !Marked(Inspected(t.v.items[id].bytes))
  }

  predicate ReaderOk(cast: Cast, t: Shadow)
    requires Shaped(cast, t)
  {
    ReaderActs(cast, t) ==>
      && (forall m :: m in t.v.queue[cast.reader] ==> Int32(m.data) in t.verdicts)
      && (t.pcs[cast.reader].RRead? ==> t.pcs[cast.reader].id in t.verdicts)
  }

  ghost predicate Inv(cast: Cast, t: Shadow) {
    && Shaped(cast, t) && RolesOk(cast, t) && HoldersOk(cast, t)
    && TurnsOk(cast, t) && InspectorsOk(cast, t)
    && ScanItem(cast, t) && VerdictsOk(cast, t) && TrustOk(t, 0) && TrustOk(t, 1)
    && ReaderOk(cast, t)
  }

  // ---- it holds at boot ---------------------------------------------------------------------

  /** The capabilities kernel_main may have given to slot s, as far as they concern the pipeline. */
  predicate BootPolicy(cast: Cast, s: int, c: Capability) {
    && (c == Capability(CAP_SEND, cast.scanner) ==> s == cast.downloader)
    && (c == Capability(CAP_SEND, cast.downloader) ==> s == cast.scanner)
    && (c == Capability(CAP_SEND, cast.reader) ==> s == cast.scanner)
    && (c.op == CAP_TERMINATE ==> c.target != cast.scanner && c.target != cast.downloader && c.target != cast.reader)
    && (c == Capability(CAP_PROMOTE_OBJECT, 0) ==> s == cast.scanner)
    && (c.op == CAP_WRITE_OBJECT && Ours(c.target) ==> s == cast.downloader)
    && (c.op == CAP_DELETE_OBJECT ==> !Ours(c.target))
    && (c.op == CAP_READ_OBJECT && Ours(c.target) ==> s == cast.scanner || s == cast.reader)
  }

  function FirstPc(cast: Cast, s: nat): Pc {
    if s == cast.downloader then DWrite(PAYLOAD_OBJECT_ID)
    else if s == cast.scanner then SWait(0)
    else if s == cast.reader then RWait(0)
    else Other
  }

  ghost predicate BootedShadow(cast: Cast, t: Shadow) {
    && Shaped(cast, t) && t.refused == {} && t.verdicts == map[]
    && (forall s :: 0 <= s < |t.pcs| ==> t.pcs[s] == FirstPc(cast, s))
    && t.v.alive[cast.downloader] && t.v.alive[cast.scanner] && t.v.alive[cast.reader]
    && (forall s :: 0 <= s < |t.pcs| && t.v.alive[s] ==> t.v.queue[s] == [])
    && (forall s :: 0 <= s < |t.pcs| && !t.v.alive[s] ==> t.v.caps[s] == {})
    && (forall s, c :: 0 <= s < |t.pcs| && c in t.v.caps[s] ==> BootPolicy(cast, s, c))
    && Capability(CAP_PROMOTE_OBJECT, 0) in t.v.caps[cast.scanner]
    && Capability(CAP_READ_OBJECT, 0) in t.v.caps[cast.scanner] && Capability(CAP_READ_OBJECT, 1) in t.v.caps[cast.scanner]
    && Capability(CAP_WRITE_OBJECT, 0) in t.v.caps[cast.downloader] && Capability(CAP_WRITE_OBJECT, 1) in t.v.caps[cast.downloader]
    && TrustOk(t, 0) && TrustOk(t, 1)
  }

  lemma BootedHolders(cast: Cast, t: Shadow)
    requires BootedShadow(cast, t)
    ensures RolesOk(cast, t) && HoldersOk(cast, t)
  {
    forall s, c | 0 <= s < |t.pcs| && c in t.v.caps[s]
      ensures Permitted(cast, t, s, c)
    {
      assert BootPolicy(cast, s, c);
    }
  }

  lemma BootedShadowInv(cast: Cast, t: Shadow)
    requires BootedShadow(cast, t)
    ensures Inv(cast, t)
  {
    assert t.pcs[cast.scanner] == SWait(0) && t.pcs[cast.downloader] == DWrite(0) && t.pcs[cast.reader] == RWait(0);
    BootedHolders(cast, t);
    assert InspectorsOk(cast, t);
  }

  // ---- what a step leaves alone -------------------------------------------------------------

  /** A part that is not the running actor goes on, where it was, with its mailbox untouched but for permitted mail. */
  lemma OthersStand(cast: Cast, t: Shadow, cur: nat, e: Event, out: Outcome, t': Shadow, x: nat)
    requires ShadowStep(cast, t, cur, e, out, t') && RolesOk(cast, t) && HoldersOk(cast, t) && x < |t.pcs| && x != cur
    requires (x == cast.scanner && ScannerActs(cast, t)) || (x == cast.downloader && DownloaderActs(cast, t))
             || (x == cast.reader && ReaderActs(cast, t))
    ensures t'.v.alive[x] && t'.pcs[x] == t.pcs[x]
    ensures t'.v.queue[x] == t.v.queue[x]
            || (SendsTo(t.v, cur, e, out, x) && t'.v.queue[x] == t.v.queue[x] + [Message(e.mtype, cur, e.data)])
  {
    PcStep(cast, t, cur, e, out, t', x);
    assert QueueStep(t.v, cur, e, out, t'.v, x);
    assert Capability(CAP_TERMINATE, x) in t.v.caps[cur] ==> Permitted(cast, t, cur, Capability(CAP_TERMINATE, x));
  }
}
