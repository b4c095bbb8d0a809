/**
  The quarantine pipeline of core/main.c as programs over the kernel: Downloader,
  Scanner, the inspectors it spawns, and Reader, each a sequence of system calls
  that the scheduler may interrupt anywhere. Every other actor does whatever its
  capabilities permit.
 */
module Quarantine {
  import opened Words
  import opened ActorTable
  import opened Kernel

  const PAYLOAD_OBJECT_ID: int := 0
  const SUSPICIOUS_OBJECT_ID: int := 1
  const MSG_DOWNLOAD_DONE: u64 := 1
  const MSG_SCAN_DONE: u64 := 2
  const TASK_INSPECT: u64 := 3
  const MSG_CHECK_PASS: u64 := 4
  const MSG_CHECK_FAIL: u64 := 5
  const PREFIX: nat := 31

  // ---- what the inspector looks for -------------------------------------------------

  const MARKER: seq<byte> := ['B' as int, 'A' as int, 'D' as int]

  /** The marker occurs at i, and no NUL before it ends the string. */
  predicate MarkerAt(buf: seq<byte>, i: int) {
    0 <= i && i + 3 <= |buf| && buf[i..i + 3] == MARKER && 0 !in buf[..i]
  }

  predicate Marked(buf: seq<byte>) {
    exists i :: 0 <= i < |buf| && MarkerAt(buf, i)
  }

  /** The bytes the inspector's 31-byte read returns. */
  function Inspected(bytes: seq<byte>): seq<byte> {
    if |bytes| > PREFIX then bytes[..PREFIX] else bytes
  }

  /** The inspector's loop over its buffer, which ends with the NUL written at buf[n]. */
  method FindMarker(read: seq<byte>) returns (bad: bool)
    ensures bad <==> Marked(read)
  {
    var buf := read + [0];
    bad := false;
    var i := 0;
    while buf[i] != 0 && buf[i + 1] != 0 && buf[i + 2] != 0
      invariant 0 <= i <= |read| && 0 !in read[..i]
      invariant forall j :: 0 <= j < i ==> !MarkerAt(read, j)
      decreases |read| - i
    {
      assert i < |read| && i + 1 < |read| && i + 2 < |read|;
      if buf[i] == 'B' as int && buf[i + 1] == 'A' as int && buf[i + 2] == 'D' as int {
        assert read[i..i + 3] == MARKER;
        assert MarkerAt(read, i);
        return true;
      }
      assert !MarkerAt(read, i) by {
        assert read[i..i + 3][0] == read[i] && read[i..i + 3][1] == read[i + 1] && read[i..i + 3][2] == read[i + 2];
      }
      assert read[..i + 1] == read[..i] + [read[i]];
      i := i + 1;
    }
    forall j | 0 <= j < |read|
      ensures !MarkerAt(read, j)
    {
      if j >= i && j + 3 <= |read| {
        assert buf[j] == read[j] && buf[j + 1] == read[j + 1] && buf[j + 2] == read[j + 2];
        NoMarkerAcrossNul(read, i, j);
      }
    }
  }

  /** Once one of three bytes from i on is NUL, no marker starts at or after i. */
  lemma NoMarkerAcrossNul(read: seq<byte>, i: nat, j: nat)
    requires i <= j && j + 3 <= |read|
    requires read[i] == 0 || read[i + 1] == 0 || read[i + 2] == 0
    ensures !MarkerAt(read, j)
  {
    var z := if read[i] == 0 then i else if read[i + 1] == 0 then i + 1 else i + 2;
    if z < j {
      assert read[..j][z] == 0;
    } else {
      assert read[j..j + 3][z - j] == 0;
    }
  }

  // ---- the programs -----------------------------------------------------------------

  /** Who plays which part, and what Downloader writes. */
  datatype Cast = Cast(downloader: nat, scanner: nat, reader: nat, inspectorEntry: nat,
                       payload: seq<byte>, suspicious: seq<byte>)

  function Content(cast: Cast, id: int): seq<byte> {
    if id == PAYLOAD_OBJECT_ID then cast.payload else cast.suspicious
  }

  /** The system call an actor is about to make, with the local variables it still needs. */
  datatype Pc =
    | Other
    | DWrite(id: int) | DSend(id: int) | DAck | DExit
    | SWait(round: nat) | SSpawn(round: nat, id: int) | SGrant(round: nat, id: int, w: int)
    | SAsk(round: nat, id: int, w: int) | SVerdict(round: nat, id: int, w: int)
    | SReject(round: nat, id: int) | SPromote(round: nat, id: int, left: nat)
    | STellReader(round: nat, id: int) | STellDownloader(round: nat, id: int) | SExit
    | IWait | IRead(sender: nat, id: int) | ISend(sender: nat, id: int, bad: bool) | IExit
    | RWait(round: nat) | RRead(round: nat, id: int) | RExit

  predicate IsD(pc: Pc) {
    pc.DWrite? || pc.DSend? || pc.DAck? || pc.DExit?
  }

  predicate IsS(pc: Pc) {
    pc.SWait? || pc.SExit? || Scanning(pc)
  }

  /** Inside actor_scan_object. */
  predicate Scanning(pc: Pc) {
    || pc.SSpawn? || pc.SGrant? || pc.SAsk? || pc.SVerdict? || pc.SReject? || pc.SPromote?
    || pc.STellReader? || pc.STellDownloader?
  }

  predicate IsI(pc: Pc) {
    pc.IWait? || pc.IRead? || pc.ISend? || pc.IExit?
  }

  predicate IsR(pc: Pc) {
    pc.RWait? || pc.RRead? || pc.RExit?
  }

  function Call(cast: Cast, pc: Pc): Event
    requires !pc.Other?
  {
    match pc
    case DWrite(id) => SysWriteObject(id, Content(cast, id))
    case DSend(id) => SysSend(cast.scanner, MSG_DOWNLOAD_DONE, U64(id))
    case DAck => SysReceive
    case DExit => SysExit
    case SWait(_) => SysReceive
    case SSpawn(_, _) => SysSpawn(cast.inspectorEntry)
    case SGrant(_, id, w) => SysGrant(w, CAP_READ_OBJECT, id)
    case SAsk(_, id, w) => SysSend(w, TASK_INSPECT, U64(id))
    case SVerdict(_, _, _) => SysReceive
    case SReject(_, id) => SysReject(id)
    case SPromote(_, id, _) => SysPromote(id)
    case STellReader(_, id) => SysSend(cast.reader, MSG_SCAN_DONE, U64(id))
    case STellDownloader(_, id) => SysSend(cast.downloader, MSG_SCAN_DONE, U64(id))
    case SExit => SysExit
    case IWait => SysReceive
    case IRead(_, id) => SysRead(id, PREFIX)
    case ISend(sender, id, bad) => SysSend(sender, if bad then MSG_CHECK_FAIL else MSG_CHECK_PASS, U64(id))
    case IExit => SysExit
    case RWait(_) => SysReceive
    case RRead(_, id) => SysRead(id, PREFIX)
    case RExit => SysExit
  }

  function NextRound(round: nat): Pc {
    if round == 0 then SWait(1) else SExit
  }

  /** Where a call's outcome leads; a receive that blocked is still to finish. */
  function After(pc: Pc, out: Outcome): Pc
    requires !pc.Other?
  {
    match pc
    case DWrite(id) => DSend(id)
    case DSend(id) => if id == PAYLOAD_OBJECT_ID then DAck else DExit
    case DAck => if out.Received? then DWrite(SUSPICIOUS_OBJECT_ID) else pc
    case SWait(r) => if out.Received? then SSpawn(r, Int32(out.msg.data)) else pc
    case SSpawn(r, id) => if out.Code? && out.code >= 0 then SGrant(r, id, out.code) else NextRound(r)
    case SGrant(r, id, w) => SAsk(r, id, w)
    case SAsk(r, id, w) => SVerdict(r, id, w)
    case SVerdict(r, id, w) =>
      if !out.Received? then pc
      else if out.msg.mtype == MSG_CHECK_FAIL then SReject(r, id)
      else SPromote(r, id, 3)
    case SReject(r, id) => STellReader(r, id)
    case SPromote(r, id, left) => if left > 1 then SPromote(r, id, left - 1) else STellReader(r, id)
    case STellReader(r, id) => STellDownloader(r, id)
    case STellDownloader(r, _) => NextRound(r)
    case IWait => if out.Received? then IRead(out.msg.sender, Int32(out.msg.data)) else pc
    case IRead(sender, id) =>
      ISend(sender, id, out.Bytes? && out.bytes.Some? && Marked(out.bytes.value))
    case ISend(_, _, _) => IExit
    case RWait(r) => if out.Received? then RRead(r, Int32(out.msg.data)) else pc
    case RRead(r, _) => if r == 0 then RWait(1) else RExit
    case _ => pc
  }

  // ---- the pipeline among all other actors ----------------------------------------------

  /**
    `refused` collects the objects for which Scanner's grant to the inspector
    came back negative, `verdicts` what Scanner has finally decided (true: promoted).
   */
  datatype System = System(k: Kernel, pcs: seq<Pc>, refused: set<int>, verdicts: map<int, bool>)

  /** Is this event a step of the running actor's program (and not a timer tick or a console write)? */
  predicate Advances(pc: Pc, e: Event) {
    !pc.Other? && !e.Timer? && !e.SysDevice?
  }

  predicate Allowed(cast: Cast, y: System, e: Event) {
    && Enabled(y.k, e) && 0 <= y.k.current && |y.pcs| == |y.k.actors|
    && var pc := y.pcs[y.k.current];
       || pc.Other? || e.Timer? || e == SysDevice(0)
       || e == Call(cast, pc) || (e.Resume? && Call(cast, pc).SysReceive?)
  }

  function NextPcs(pcs: seq<Pc>, cur: nat, e: Event, out: Outcome): (r: seq<Pc>)
    requires cur < |pcs|
    ensures |r| == |pcs|
  {
    var me := pcs[cur];
    var pcs1 := if Advances(me, e) then pcs[cur := After(me, out)] else pcs;
    var child := Child(e, out);
    if 0 <= child < |pcs| then pcs1[child := if me.SSpawn? then IWait else Other] else pcs1
  }

  function NextRefused(refused: set<int>, pc: Pc, e: Event, out: Outcome): set<int> {
    if pc.SGrant? && Advances(pc, e) && out != Code(0) then refused + {pc.id} else refused
  }

  function NextVerdicts(verdicts: map<int, bool>, pc: Pc, e: Event): map<int, bool> {
    if pc.SReject? && Advances(pc, e) then verdicts[pc.id := false]
    else if pc.SPromote? && pc.left <= 1 && Advances(pc, e) then verdicts[pc.id := true]
    else verdicts
  }

  function Next(cast: Cast, y: System, e: Event): System
    requires Allowed(cast, y, e)
  {
    var (k, out) := Step(y.k, e);
    SystemAfter(y, e, k, out)
  }

  /** The kernel has moved to k with this outcome; the running actor's program moves along. */
  function SystemAfter(y: System, e: Event, k: Kernel, out: Outcome): System
    requires 0 <= y.k.current < |y.pcs|
  {
    var pc := y.pcs[y.k.current];
    System(k, NextPcs(y.pcs, y.k.current, e, out), NextRefused(y.refused, pc, e, out), NextVerdicts(y.verdicts, pc, e))
  }
}
