/**
  The pipeline's promise fails when Scanner's grant meets a full table. This
  module writes such a run down, from the state kernel_main leaves: between
  Scanner's spawn and its grant another actor fills the inspector's capability
  table by delegation, the inspector cannot read, passes what it could not see,
  and marked content is promoted. Nobody ever blocks in it, so ticks alone bring
  anybody's turn about.
 */
module RefusedGrant {
  import opened Options
  import opened Words
  import opened ActorTable
  import opened Kernel
  import opened Quarantine
  import opened Scenes
  import opened Machine
  import Directory
  import Immutability
  import KernelMain
  import Lifecycle
  import Mailboxes
  import QuarantineBoot
  import QuarantineInvariant
  import QuarantineSafety
  import QuarantineView
  import Scheduling
  import StoreRefinement
  import StoreSpec

  // ---- runs ----------------------------------------------------------------------------

  ghost predicate Leads(cast: Cast, y0: System, y: System) {
    exists ys, es :: QuarantineSafety.IsPipelineRun(cast, ys, es) && ys[0] == y0 && ys[|es|] == y
  }

  lemma LeadsNowhere(cast: Cast, y: System)
    ensures Leads(cast, y, y)
  {
    assert QuarantineSafety.IsPipelineRun(cast, [y], []);
  }

  lemma LeadsOn(cast: Cast, y0: System, y: System, e: Event)
    requires Leads(cast, y0, y) && Allowed(cast, y, e)
    ensures Leads(cast, y0, Next(cast, y, e))
  {
    var ys, es :| QuarantineSafety.IsPipelineRun(cast, ys, es) && ys[0] == y0 && ys[|es|] == y;
    RunExtends(cast, ys, es, e);
    var y' := Next(cast, y, e);
    assert (ys + [y'])[0] == y0 && (ys + [y'])[|es + [e]|] == y';
  }

  ghost predicate Follows(cast: Cast, y: System, e: Event, y': System) {
    Allowed(cast, y, e) && y' == Next(cast, y, e)
  }

  lemma EachFollows(cast: Cast, ys: seq<System>, es: seq<Event>, i: nat)
    requires QuarantineSafety.IsPipelineRun(cast, ys, es) && i < |es|
    ensures Follows(cast, ys[i], es[i], ys[i + 1])
  {
    var e := es[i];
  }

  lemma FollowingRuns(cast: Cast, ys: seq<System>, es: seq<Event>)
    requires |ys| == |es| + 1 && forall i: nat :: i < |es| ==> Follows(cast, ys[i], es[i], ys[i + 1])
    ensures QuarantineSafety.IsPipelineRun(cast, ys, es)
  {
    forall i | 0 <= i < |es|
      ensures Allowed(cast, ys[i], es[i]) && ys[i + 1] == Next(cast, ys[i], es[i])
    {
      assert Follows(cast, ys[i], es[i], ys[i + 1]);
    }
  }

  lemma RunExtends(cast: Cast, ys: seq<System>, es: seq<Event>, e: Event)
    requires QuarantineSafety.IsPipelineRun(cast, ys, es) && Allowed(cast, ys[|es|], e)
    ensures QuarantineSafety.IsPipelineRun(cast, ys + [Next(cast, ys[|es|], e)], es + [e])
  {
    var y' := Next(cast, ys[|es|], e);
    var ys', es' := ys + [y'], es + [e];
    forall i: nat | i < |es'|
      ensures Follows(cast, ys'[i], es'[i], ys'[i + 1])
    {
      if i < |es| {
        EachFollows(cast, ys, es, i);
      }
    }
    FollowingRuns(cast, ys', es');
  }

  // ---- the stage -------------------------------------------------------------------------

  /** Where an actor's program is, and the mail it has. */
  datatype Act = Act(pc: Pc, mail: seq<Message>)

  /** Those the play is about; everybody else may be anything. */
  type Crew = map<int, Act>

  predicate Plays(k: Kernel, pcs: seq<Pc>, c: Crew) {
    |pcs| == |k.actors| && forall n :: n in c ==> Stands(k, n, c[n].mail) && pcs[n] == c[n].pc
  }

  /** The system is in this scene, with this store. */
  predicate At(y: System, c: Crew, st: StoreSpec.Store, refused: set<int>) {
    Calm(y.k) && Plays(y.k, y.pcs, c) && y.k.store == st && y.refused == refused
  }

  // ---- turns -----------------------------------------------------------------------------

  /** Only whose turn it is differs. */
  predicate Turned(y: System, y': System) {
    SameButTurn(y.k, y'.k) && y'.pcs == y.pcs && y'.refused == y.refused
  }

  lemma TickTurns(cast: Cast, y: System)
    requires Calm(y.k) && |y.pcs| == |y.k.actors|
    ensures Allowed(cast, y, Timer)
    ensures var y' := Next(cast, y, Timer); Turned(y, y') && Calm(y'.k) && y'.k == Step(y.k, Timer).0
  {
    Tick(y.k);
  }

  /** Ticks go round until it is the target's turn. */
  lemma {:induction false} Rotate(cast: Cast, y0: System, y: System, target: nat) returns (y': System)
    requires Leads(cast, y0, y) && Calm(y.k) && |y.pcs| == |y.k.actors| && SlotOk(y.k, target) && Runnable(y.k.actors[target])
    ensures Leads(cast, y0, y') && Calm(y'.k) && Turned(y, y') && y'.k.current == target
    decreases if y.k.current == target then 0 else 1 + Scheduling.Distance(|y.k.actors|, y.k.current, target)
  {
    if y.k.current == target {
      y' := y;
    } else {
      TickTurns(cast, y);
      TickApproaches(y.k, target);
      LeadsOn(cast, y0, y, Timer);
      y' := Rotate(cast, y0, Next(cast, y, Timer), target);
    }
  }

  lemma TurnStage(y: System, y': System, c: Crew, st: StoreSpec.Store, rf: set<int>)
    requires At(y, c, st, rf) && Turned(y, y') && Calm(y'.k)
    ensures At(y', c, st, rf) && SameRights(y.k, y'.k)
  {
    forall n | n in c
      ensures Stands(y'.k, n, c[n].mail)
    {
      TurnKeeps(y.k, y'.k, n, c[n].mail);
    }
    TurnKeepsRights(y.k, y'.k);
  }

  /** One of the crew comes on. */
  lemma Enter(cast: Cast, y0: System, y: System, c: Crew, st: StoreSpec.Store, rf: set<int>, n: int) returns (y': System)
    requires Leads(cast, y0, y) && At(y, c, st, rf) && n in c
    ensures Leads(cast, y0, y') && At(y', c, st, rf) && y'.k.current == n && SameRights(y.k, y'.k)
  {
    y' := Rotate(cast, y0, y, n);
    TurnStage(y, y', c, st, rf);
  }

  // ---- calls -------------------------------------------------------------------------------

  /** The running actor's next call. */
  predicate Cue(cast: Cast, y: System, c: Crew, e: Event) {
    0 <= y.k.current && y.k.current in c && !c[y.k.current].pc.Other? && e == Call(cast, c[y.k.current].pc)
  }

  lemma CueAllowed(cast: Cast, y: System, c: Crew, e: Event)
    requires Calm(y.k) && Plays(y.k, y.pcs, c) && Cue(cast, y, c, e)
    ensures Enabled(y.k, e) && Allowed(cast, y, e) && Advances(y.pcs[y.k.current], e) && !Me(y.k).inReceive
    ensures y.pcs[y.k.current] == c[y.k.current].pc
  {
    assert Stands(y.k, y.k.current, c[y.k.current].mail);
  }

  /** The crew after a call of the running actor that changed at most the mail of slot s. */
  predicate Moved(c: Crew, cur: int, out: Outcome, s: int, mail: seq<Message>, c': Crew)
    requires cur in c && s in c && !c[cur].pc.Other?
  {
    && c'.Keys == c.Keys
    && (forall n :: n in c && n != cur && n != s ==> c'[n] == c[n])
    && c'[cur] == Act(After(c[cur].pc, out), if s == cur then mail else c[cur].mail)
    && (s != cur ==> c'[s] == Act(c[s].pc, mail))
  }

  lemma Moves(c: Crew, cur: int, out: Outcome, s: int, mail: seq<Message>) returns (c': Crew)
    requires cur in c && s in c && !c[cur].pc.Other?
    ensures Moved(c, cur, out, s, mail, c')
  {
    c' := c[s := c[s].(mail := mail)];
    c' := c'[cur := c'[cur].(pc := After(c[cur].pc, out))];
  }

  lemma MovedStage(cast: Cast, y: System, c: Crew, e: Event, k': Kernel, out: Outcome, s: int, mail: seq<Message>, c': Crew)
    requires Plays(y.k, y.pcs, c) && Cue(cast, y, c, e) && Advances(y.pcs[y.k.current], e) && Child(e, out) < 0
    requires s in c && MailChanged(y.k, k', s, mail) && Moved(c, y.k.current, out, s, mail, c')
    ensures Plays(k', SystemAfter(y, e, k', out).pcs, c')
  {
    forall n | n in c'
      ensures Stands(k', n, c'[n].mail) && SystemAfter(y, e, k', out).pcs[n] == c'[n].pc
    {
      assert Stands(y.k, n, c[n].mail) && y.pcs[n] == c[n].pc;
    }
  }

  /** A call that concerns mail only, or nothing at all. */
  lemma Talk(cast: Cast, y0: System, y: System, c: Crew, st: StoreSpec.Store, rf: set<int>, e: Event, k': Kernel, out: Outcome, s: int, mail: seq<Message>)
    returns (y': System, c': Crew)
    requires Leads(cast, y0, y) && At(y, c, st, rf) && Cue(cast, y, c, e) && Child(e, out) < 0 && s in c
    requires Enabled(y.k, e) && Step(y.k, e) == (k', out) && MailChanged(y.k, k', s, mail)
    ensures Leads(cast, y0, y') && y'.k == k' && Moved(c, y.k.current, out, s, mail, c')
    ensures At(y', c', st, NextRefused(rf, c[y.k.current].pc, e, out))
  {
    CueAllowed(cast, y, c, e);
    c' := Moves(c, y.k.current, out, s, mail);
    MovedStage(cast, y, c, e, k', out, s, mail, c');
    LeadsOn(cast, y0, y, e);
    y' := Next(cast, y, e);
  }

  lemma Tell(cast: Cast, y0: System, y: System, c: Crew, st: StoreSpec.Store, rf: set<int>, dest: int, mtype: u64, data: u64)
    returns (y': System, c': Crew)
    requires Leads(cast, y0, y) && At(y, c, st, rf) && Cue(cast, y, c, SysSend(dest, mtype, data))
    requires dest in c && c[dest].mail == [] && dest != y.k.current && MaySend(y.k, y.k.current, dest)
    ensures Leads(cast, y0, y') && SameRights(y.k, y'.k) && y'.k.current == y.k.current && At(y', c', st, rf)
    ensures Moved(c, y.k.current, Code(0), dest, [Message(mtype, y.k.current, data)], c')
  {
    var e := SysSend(dest, mtype, data);
    CueAllowed(cast, y, c, e);
    Sends(y.k, dest, mtype, data);
    y', c' := Talk(cast, y0, y, c, st, rf, e, Step(y.k, e).0, Code(0), dest, [Message(mtype, y.k.current, data)]);
  }

  lemma Hear(cast: Cast, y0: System, y: System, c: Crew, st: StoreSpec.Store, rf: set<int>, m: Message)
    returns (y': System, c': Crew)
    requires Leads(cast, y0, y) && At(y, c, st, rf) && Cue(cast, y, c, SysReceive) && c[y.k.current].mail == [m]
    ensures Leads(cast, y0, y') && SameRights(y.k, y'.k) && y'.k.current == y.k.current && At(y', c', st, rf)
    ensures Moved(c, y.k.current, Received(m), y.k.current, [], c')
  {
    Receives(y.k, m);
    y', c' := Talk(cast, y0, y, c, st, rf, SysReceive, Step(y.k, SysReceive).0, Received(m), y.k.current, []);
  }

  /** One of the crew comes on and takes its message. */
  lemma EnterAndHear(cast: Cast, y0: System, y: System, c: Crew, st: StoreSpec.Store, rf: set<int>, n: int, m: Message)
    returns (y': System, c': Crew)
    requires Leads(cast, y0, y) && At(y, c, st, rf) && n in c && !c[n].pc.Other? && Call(cast, c[n].pc) == SysReceive && c[n].mail == [m]
    ensures Leads(cast, y0, y') && SameRights(y.k, y'.k) && y'.k.current == n && At(y', c', st, rf)
    ensures Moved(c, n, Received(m), n, [], c')
  {
    var y1 := Enter(cast, y0, y, c, st, rf, n);
    y', c' := Hear(cast, y0, y1, c, st, rf, m);
    SameRightsTrans(y.k, y1.k, y'.k);
  }

  /** The inspector reads without the right to read. */
  lemma ReadNothing(cast: Cast, y0: System, y: System, c: Crew, st: StoreSpec.Store, rf: set<int>, id: int)
    returns (y': System, c': Crew)
    requires Leads(cast, y0, y) && At(y, c, st, rf) && Cue(cast, y, c, SysRead(id, PREFIX))
    requires !HasCap(Me(y.k), CAP_READ_OBJECT, id)
    ensures Leads(cast, y0, y') && y'.k == y.k && At(y', c', st, rf)
    ensures Moved(c, y.k.current, Bytes(None), y.k.current, c[y.k.current].mail, c')
  {
    CueAllowed(cast, y, c, SysRead(id, PREFIX));
    ReadRefused(y.k, id, PREFIX);
    Unchanged(y.k, c[y.k.current].mail);
    y', c' := Talk(cast, y0, y, c, st, rf, SysRead(id, PREFIX), y.k, Bytes(None), y.k.current, c[y.k.current].mail);
  }

  /** Scanner's grant to an inspector whose table is full. */
  lemma GrantNothing(cast: Cast, y0: System, y: System, c: Crew, st: StoreSpec.Store, rf: set<int>, w: int, id: int)
    returns (y': System, c': Crew)
    requires Leads(cast, y0, y) && At(y, c, st, rf) && 0 <= y.k.current && y.k.current in c
    requires c[y.k.current].pc.SGrant? && c[y.k.current].pc.id == id && c[y.k.current].pc.w == w
    requires SlotOk(y.k, w) && TableFull(y.k.actors[w])
    ensures Leads(cast, y0, y') && y'.k == y.k && At(y', c', st, rf + {id})
    ensures Moved(c, y.k.current, Code(-1), y.k.current, c[y.k.current].mail, c')
  {
    var e := SysGrant(w, CAP_READ_OBJECT, id);
    CueAllowed(cast, y, c, e);
    GrantRefused(y.k, w, CAP_READ_OBJECT, id);
    Unchanged(y.k, c[y.k.current].mail);
    y', c' := Talk(cast, y0, y, c, st, rf, e, y.k, Code(-1), y.k.current, c[y.k.current].mail);
  }

  // ---- calls to the store --------------------------------------------------------------------

  /** Object 0 is live and in this state. */
  ghost predicate Holds(st: StoreSpec.Store, item: QuarantineView.Item) {
    && StoreRefinement.StoreInv(st) && 0 in StoreRefinement.ViewOf(st)
    && QuarantineView.ItemIn(st, 0) == item
  }

  lemma StoreKernel(k: Kernel, e: Event, item: QuarantineView.Item)
    requires Started(k) && Enabled(k, e) && Holds(k.store, item) && (e.SysWriteObject? || e.SysPromote?)
    ensures Holds(Step(k, e).0.store, QuarantineView.ItemAfter(Me(k), item, e, 0))
  {
    Immutability.StepStore(k, e);
    QuarantineView.StoreItem(k, e, 0);
  }

  lemma StoreKeepsRest(k: Kernel, e: Event)
    requires Started(k) && Enabled(k, e) && (e.SysWriteObject? || e.SysPromote?)
    ensures Step(k, e).0 == k.(store := Step(k, e).0.store)
  {
    assert Step(k, e) == StoreStep(k, e);
  }

  lemma StoredStage(cast: Cast, y: System, c: Crew, e: Event, k': Kernel, out: Outcome, c': Crew)
    requires Plays(y.k, y.pcs, c) && Cue(cast, y, c, e) && Advances(y.pcs[y.k.current], e) && Child(e, out) < 0
    requires k'.actors == y.k.actors && Moved(c, y.k.current, out, y.k.current, c[y.k.current].mail, c')
    ensures Plays(k', SystemAfter(y, e, k', out).pcs, c')
  {
    forall n | n in c'
      ensures Stands(k', n, c'[n].mail) && SystemAfter(y, e, k', out).pcs[n] == c'[n].pc
    {
      assert Stands(y.k, n, c[n].mail) && y.pcs[n] == c[n].pc;
    }
  }

  lemma StorePc(cast: Cast, pc: Pc, e: Event, out: Outcome)
    requires (pc.DWrite? || pc.SPromote?) && e == Call(cast, pc)
    ensures Child(e, out) == -1 && After(pc, out) == After(pc, Suspended) && !pc.SGrant?
  {
  }

  lemma StoreCall(cast: Cast, y0: System, y: System, c: Crew, st: StoreSpec.Store, rf: set<int>, e: Event, item: QuarantineView.Item)
    returns (y': System, c': Crew)
    requires Leads(cast, y0, y) && At(y, c, st, rf) && Cue(cast, y, c, e) && Holds(st, item)
    requires c[y.k.current].pc.DWrite? || c[y.k.current].pc.SPromote?
    ensures Leads(cast, y0, y') && SameRights(y.k, y'.k) && y'.k.current == y.k.current && At(y', c', y'.k.store, rf)
    ensures Moved(c, y.k.current, Suspended, y.k.current, c[y.k.current].mail, c')
    ensures Holds(y'.k.store, QuarantineView.ItemAfter(Me(y.k), item, e, 0))
  {
    CueAllowed(cast, y, c, e);
    StoreKernel(y.k, e, item);
    StoreKeepsRest(y.k, e);
    var (k', out) := Step(y.k, e);
    StorePc(cast, c[y.k.current].pc, e, out);
    c' := Moves(c, y.k.current, out, y.k.current, c[y.k.current].mail);
    StoredStage(cast, y, c, e, k', out, c');
    LeadsOn(cast, y0, y, e);
    y' := Next(cast, y, e);
  }

  // ---- the inspector comes on, and the peer fills its table ------------------------------------

  lemma BornStage(y: System, c: Crew, pc: Pc, e: Event, k': Kernel, w: nat, c': Crew)
    requires Started(y.k) && Plays(y.k, y.pcs, c) && y.k.current in c && c[y.k.current] == Act(pc, []) && pc.SSpawn? && e.SysSpawn?
    requires w !in c && Born(y.k, k', w)
    requires c' == c[y.k.current := Act(SGrant(pc.round, pc.id, w), [])][w := Act(IWait, [])]
    ensures Plays(k', SystemAfter(y, e, k', Code(w)).pcs, c')
    ensures SystemAfter(y, e, k', Code(w)).refused == y.refused
  {
    assert y.pcs[y.k.current] == pc;
    forall n | n in c'
      ensures Stands(k', n, c'[n].mail) && SystemAfter(y, e, k', Code(w)).pcs[n] == c'[n].pc
    {
      if n == y.k.current {
        assert Stands(y.k, n, c[n].mail);
        Mailboxes.SameBoxQueue(y.k.actors[n], k'.actors[n]);
      } else if n != w {
        assert Stands(y.k, n, c[n].mail) && y.pcs[n] == c[n].pc;
      }
    }
  }

  lemma SpawnInspector(cast: Cast, y0: System, y: System, c: Crew, st: StoreSpec.Store, rf: set<int>, pc: Pc, w: nat, c': Crew)
    returns (y': System)
    requires Leads(cast, y0, y) && At(y, c, st, rf) && Cue(cast, y, c, SysSpawn(cast.inspectorEntry))
    requires c[y.k.current] == Act(pc, []) && pc.SSpawn? && w !in c
    requires MaySpawn(y.k) && !TableFull(Me(y.k)) && RoomFor(y.k, w)
    requires c' == c[y.k.current := Act(SGrant(pc.round, pc.id, w), [])][w := Act(IWait, [])]
    ensures Leads(cast, y0, y') && At(y', c', st, rf) && Born(y.k, y'.k, w)
  {
    var e := SysSpawn(cast.inspectorEntry);
    CueAllowed(cast, y, c, e);
    SpawnsChild(y.k, cast.inspectorEntry, w);
    BornStage(y, c, pc, e, Step(y.k, e).0, w, c');
    LeadsOn(cast, y0, y, e);
    y' := Next(cast, y, e);
  }

  /** An actor outside the pipeline delegates a right of its own to slot w, n times. */
  lemma {:induction false} Fill(cast: Cast, y0: System, y: System, c: Crew, st: StoreSpec.Store, rf: set<int>, w: nat, cap: Capability, n: nat)
    returns (y': System)
    requires Leads(cast, y0, y) && At(y, c, st, rf) && y.k.current in c && c[y.k.current].pc.Other?
    requires SlotOk(y.k, w) && w != y.k.current && cap.op != 0 && cap in y.k.actors[y.k.current].caps
    ensures Leads(cast, y0, y') && At(y', c, st, rf) && Filled(y.k, y'.k, w, n)
  {
    if n == 0 {
      y' := y;
    } else {
      var y1 := Fill(cast, y0, y, c, st, rf, w, cap, n - 1);
      y' := FillStep(cast, y0, y, y1, c, st, rf, w, cap, n - 1);
    }
  }

  lemma FilledStage(k: Kernel, pcs: seq<Pc>, c: Crew, k': Kernel, w: nat, n: nat)
    requires Plays(k, pcs, c) && SlotOk(k, w) && Filled(k, k', w, n)
    ensures Plays(k', pcs, c)
  {
    forall s | s in c
      ensures Stands(k', s, c[s].mail)
    {
      assert Stands(k, s, c[s].mail);
      Mailboxes.SameBoxQueue(k.actors[s], k'.actors[s]);
    }
  }

  /** The peer's program is not part of the pipeline. */
  lemma PeerCalls(cast: Cast, y: System, c: Crew, e: Event)
    requires Calm(y.k) && Plays(y.k, y.pcs, c) && y.k.current in c && c[y.k.current].pc.Other? && e.SysGrant?
    ensures !Me(y.k).inReceive && Enabled(y.k, e) && Allowed(cast, y, e)
    ensures forall k', out :: Child(e, out) < 0 && SystemAfter(y, e, k', out) == y.(k := k')
  {
    assert Stands(y.k, y.k.current, c[y.k.current].mail) && y.pcs[y.k.current].Other?;
  }

  lemma FillStep(cast: Cast, y0: System, y: System, y1: System, c: Crew, st: StoreSpec.Store, rf: set<int>, w: nat, cap: Capability, n: nat)
    returns (y': System)
    requires Leads(cast, y0, y1) && At(y, c, st, rf) && At(y1, c, st, rf) && y.k.current in c && c[y.k.current].pc.Other?
    requires SlotOk(y.k, w) && w != y.k.current && Filled(y.k, y1.k, w, n) && cap.op != 0 && cap in y.k.actors[y.k.current].caps
    ensures Leads(cast, y0, y') && At(y', c, st, rf) && Filled(y.k, y'.k, w, n + 1)
  {
    var e := SysGrant(w, cap.op, cap.target);
    PeerCalls(cast, y1, c, e);
    FillOnce(y.k, y1.k, w, n, cap);
    FilledStage(y.k, y1.pcs, c, Step(y1.k, e).0, w, n + 1);
    LeadsOn(cast, y0, y1, e);
    y' := Next(cast, y1, e);
  }

  // ---- the play ----------------------------------------------------------------------------

  const DONE: Message := Message(MSG_DOWNLOAD_DONE, DOWNLOADER_SLOT, U64(0))
  const TASK: Message := Message(TASK_INSPECT, SCANNER_SLOT, U64(0))

  function Pass(w: nat): Message {
    Message(MSG_CHECK_PASS, w, U64(0))
  }

  predicate Has(c: Crew, n: int, pc: Pc, mail: seq<Message>) {
    n in c && c[n] == Act(pc, mail)
  }

  /** Downloader, Scanner and the network peer. */
  predicate Trio(c: Crew, d: Pc, s: Pc, mail: seq<Message>) {
    && c.Keys == {DOWNLOADER_SLOT, SCANNER_SLOT, NETWORK_PEER_SLOT}
    && Has(c, DOWNLOADER_SLOT, d, []) && Has(c, SCANNER_SLOT, s, mail) && Has(c, NETWORK_PEER_SLOT, Other, [])
  }

  /** Scanner and its inspector. */
  predicate Pair(c: Crew, s: Act, w: nat, i: Act) {
    w > NETWORK_PEER_SLOT && Has(c, SCANNER_SLOT, s.pc, s.mail) && Has(c, w, i.pc, i.mail)
  }

  predicate MaySend(k: Kernel, s: int, dest: int) {
    SlotOk(k, s) && HasCap(k.actors[s], CAP_SEND, dest)
  }

  lemma SmallIds()
    ensures Int32(U64(0)) == 0
  {
  }

  /** Downloader writes object 0 and announces it; Scanner takes the announcement. */
  lemma ActOne(cast: Cast, y0: System, y: System, c: Crew, item: QuarantineView.Item) returns (y': System, c': Crew)
    requires cast == SomeCast(cast.payload, cast.suspicious) && |cast.payload| <= Directory.OBJECT_MAX_BYTES
    requires Leads(cast, y0, y) && At(y, c, y.k.store, {}) && Trio(c, DWrite(0), SWait(0), []) && Holds(y.k.store, item)
    requires MaySend(y.k, DOWNLOADER_SLOT, SCANNER_SLOT) && HasCap(y.k.actors[DOWNLOADER_SLOT], CAP_WRITE_OBJECT, 0)
    ensures Leads(cast, y0, y') && SameRights(y.k, y'.k) && y'.k.current == SCANNER_SLOT
    ensures At(y', c', y'.k.store, {}) && Trio(c', DAck, SSpawn(0, 0), [])
    ensures Holds(y'.k.store, QuarantineView.Item(cast.payload, Directory.UNTRUSTED))
  {
    var y1 := Enter(cast, y0, y, c, y.k.store, {}, DOWNLOADER_SLOT);
    SameSend(y.k, y1.k, DOWNLOADER_SLOT, SCANNER_SLOT);
    var y2, c2 := WriteScene(cast, y0, y1, c, item);
    SameSend(y1.k, y2.k, DOWNLOADER_SLOT, SCANNER_SLOT);
    SameRightsTrans(y.k, y1.k, y2.k);
    y', c' := AnnounceScene(cast, y0, y2, c2, y2.k.store);
    SameRightsTrans(y.k, y2.k, y'.k);
  }

  lemma SameSend(k: Kernel, k': Kernel, s: nat, dest: nat)
    requires SameRights(k, k') && MaySend(k, s, dest)
    ensures MaySend(k', s, dest) && k'.actors[s].caps == k.actors[s].caps
  {
    SameCaps(k, k', s);
  }

  lemma WriteScene(cast: Cast, y0: System, y: System, c: Crew, item: QuarantineView.Item) returns (y': System, c': Crew)
    requires cast == SomeCast(cast.payload, cast.suspicious) && |cast.payload| <= Directory.OBJECT_MAX_BYTES
    requires Leads(cast, y0, y) && At(y, c, y.k.store, {}) && Trio(c, DWrite(0), SWait(0), []) && y.k.current == DOWNLOADER_SLOT
    requires HasCap(Me(y.k), CAP_WRITE_OBJECT, 0) && Holds(y.k.store, item)
    ensures Leads(cast, y0, y') && SameRights(y.k, y'.k) && y'.k.current == DOWNLOADER_SLOT
    ensures At(y', c', y'.k.store, {}) && Trio(c', DSend(0), SWait(0), [])
    ensures Holds(y'.k.store, QuarantineView.Item(cast.payload, Directory.UNTRUSTED))
  {
    y', c' := StoreCall(cast, y0, y, c, y.k.store, {}, SysWriteObject(0, cast.payload), item);
    WriteCrew(c, c');
  }

  lemma WriteCrew(c: Crew, c': Crew)
    requires Trio(c, DWrite(0), SWait(0), []) && Moved(c, DOWNLOADER_SLOT, Suspended, DOWNLOADER_SLOT, [], c')
    ensures Trio(c', DSend(0), SWait(0), [])
  {
  }

  lemma AnnounceScene(cast: Cast, y0: System, y: System, c: Crew, st: StoreSpec.Store) returns (y': System, c': Crew)
    requires cast == SomeCast(cast.payload, cast.suspicious)
    requires Leads(cast, y0, y) && At(y, c, st, {}) && Trio(c, DSend(0), SWait(0), []) && y.k.current == DOWNLOADER_SLOT
    requires MaySend(y.k, DOWNLOADER_SLOT, SCANNER_SLOT)
    ensures Leads(cast, y0, y') && SameRights(y.k, y'.k) && y'.k.current == SCANNER_SLOT
    ensures At(y', c', st, {}) && Trio(c', DAck, SSpawn(0, 0), [])
  {
    var y1, c1 := Tell(cast, y0, y, c, st, {}, SCANNER_SLOT, MSG_DOWNLOAD_DONE, U64(0));
    ToldCrew(c, c1);
    y', c' := HearsDone(cast, y0, y1, c1, st);
    SameRightsTrans(y.k, y1.k, y'.k);
  }

  lemma ToldCrew(c: Crew, c': Crew)
    requires Trio(c, DSend(0), SWait(0), []) && Moved(c, DOWNLOADER_SLOT, Code(0), SCANNER_SLOT, [DONE], c')
    ensures Trio(c', DAck, SWait(0), [DONE])
  {
  }

  lemma HearsDone(cast: Cast, y0: System, y: System, c: Crew, st: StoreSpec.Store) returns (y': System, c': Crew)
    requires Leads(cast, y0, y) && At(y, c, st, {}) && Trio(c, DAck, SWait(0), [DONE])
    ensures Leads(cast, y0, y') && SameRights(y.k, y'.k) && y'.k.current == SCANNER_SLOT
    ensures At(y', c', st, {}) && Trio(c', DAck, SSpawn(0, 0), [])
  {
    y', c' := EnterAndHear(cast, y0, y, c, st, {}, SCANNER_SLOT, DONE);
    DoneCrew(c, c');
  }

  lemma DoneCrew(c: Crew, c': Crew)
    requires Trio(c, DAck, SWait(0), [DONE]) && Moved(c, SCANNER_SLOT, Received(DONE), SCANNER_SLOT, [], c')
    ensures Trio(c', DAck, SSpawn(0, 0), [])
  {
    SmallIds();
  }

  /** Scanner may ask the inspector, and the inspector may answer. */
  predicate MayTalk(k: Kernel, w: nat) {
    SlotOk(k, w) && MaySend(k, SCANNER_SLOT, w) && MaySend(k, w, SCANNER_SLOT)
  }

  lemma SameTalk(k: Kernel, k': Kernel, w: nat)
    requires SameRights(k, k') && MayTalk(k, w)
    ensures MayTalk(k', w) && k'.actors[w].caps == k.actors[w].caps
  {
    SameSend(k, k', SCANNER_SLOT, w);
    SameSend(k, k', w, SCANNER_SLOT);
  }

  /** Scanner spawns its inspector; before the grant its time slice ends, and the peer fills the inspector's table. */
  lemma ActTwo(cast: Cast, y0: System, y: System, c: Crew, st: StoreSpec.Store, w: nat) returns (y': System, c': Crew)
    requires Leads(cast, y0, y) && At(y, c, st, {}) && Trio(c, DAck, SSpawn(0, 0), []) && y.k.current == SCANNER_SLOT
    requires w > NETWORK_PEER_SLOT && MaySpawn(y.k) && !TableFull(Me(y.k)) && RoomFor(y.k, w)
    requires SlotOk(y.k, NETWORK_PEER_SLOT) && HasCap(y.k.actors[NETWORK_PEER_SLOT], CAP_NET, 0)
    ensures Leads(cast, y0, y') && At(y', c', st, {}) && Pair(c', Act(SGrant(0, 0, w), []), w, Act(IWait, []))
    ensures MayTalk(y'.k, w) && TableFull(y'.k.actors[w])
  {
    c' := c[SCANNER_SLOT := Act(SGrant(0, 0, w), [])][w := Act(IWait, [])];
    var y1 := SpawnInspector(cast, y0, y, c, st, {}, SSpawn(0, 0), w, c');
    var y2 := Enter(cast, y0, y1, c', st, {}, NETWORK_PEER_SLOT);
    SameTalk(y1.k, y2.k, w);
    SameCaps(y1.k, y2.k, NETWORK_PEER_SLOT);
    y' := FillScene(cast, y0, y2, c', st, w);
  }

  lemma FillScene(cast: Cast, y0: System, y: System, c: Crew, st: StoreSpec.Store, w: nat) returns (y': System)
    requires Leads(cast, y0, y) && At(y, c, st, {}) && y.k.current == NETWORK_PEER_SLOT && Has(c, NETWORK_PEER_SLOT, Other, [])
    requires w > NETWORK_PEER_SLOT && MayTalk(y.k, w) && HasCap(Me(y.k), CAP_NET, 0)
    ensures Leads(cast, y0, y') && At(y', c, st, {}) && MayTalk(y'.k, w) && TableFull(y'.k.actors[w])
  {
    y' := Fill(cast, y0, y, c, st, {}, w, Capability(CAP_NET, 0), |y.k.actors[w].caps|);
    FilledUp(y.k, y'.k, w);
  }

  /** Scanner's grant is refused; it asks all the same, and the inspector takes the request. */
  lemma ActThree(cast: Cast, y0: System, y: System, c: Crew, st: StoreSpec.Store, w: nat) returns (y': System, c': Crew)
    requires Leads(cast, y0, y) && At(y, c, st, {}) && Pair(c, Act(SGrant(0, 0, w), []), w, Act(IWait, []))
    requires MayTalk(y.k, w) && TableFull(y.k.actors[w])
    ensures Leads(cast, y0, y') && At(y', c', st, {0}) && Pair(c', Act(SVerdict(0, 0, w), []), w, Act(IRead(SCANNER_SLOT, 0), []))
    ensures y'.k.current == w && MayTalk(y'.k, w)
  {
    var y1, c1 := GrantScene(cast, y0, y, c, st, w);
    SameTalk(y.k, y1.k, w);
    var y2, c2 := AskScene(cast, y0, y1, c1, st, w);
    SameTalk(y1.k, y2.k, w);
    y', c' := TaskScene(cast, y0, y2, c2, st, w);
    SameTalk(y2.k, y'.k, w);
  }

  lemma GrantScene(cast: Cast, y0: System, y: System, c: Crew, st: StoreSpec.Store, w: nat) returns (y': System, c': Crew)
    requires Leads(cast, y0, y) && At(y, c, st, {}) && Pair(c, Act(SGrant(0, 0, w), []), w, Act(IWait, []))
    requires MayTalk(y.k, w) && TableFull(y.k.actors[w])
    ensures Leads(cast, y0, y') && At(y', c', st, {0}) && Pair(c', Act(SAsk(0, 0, w), []), w, Act(IWait, []))
    ensures SameRights(y.k, y'.k) && y'.k.current == SCANNER_SLOT
  {
    var y1 := Enter(cast, y0, y, c, st, {}, SCANNER_SLOT);
    SameTalk(y.k, y1.k, w);
    y', c' := GrantNothing(cast, y0, y1, c, st, {}, w, 0);
    GrantCrew(c, w, c');
    assert {} + {0} == {0};
  }

  lemma GrantCrew(c: Crew, w: nat, c': Crew)
    requires Pair(c, Act(SGrant(0, 0, w), []), w, Act(IWait, [])) && Moved(c, SCANNER_SLOT, Code(-1), SCANNER_SLOT, [], c')
    ensures Pair(c', Act(SAsk(0, 0, w), []), w, Act(IWait, []))
  {
  }

  lemma AskScene(cast: Cast, y0: System, y: System, c: Crew, st: StoreSpec.Store, w: nat) returns (y': System, c': Crew)
    requires Leads(cast, y0, y) && At(y, c, st, {0}) && Pair(c, Act(SAsk(0, 0, w), []), w, Act(IWait, []))
    requires MayTalk(y.k, w) && y.k.current == SCANNER_SLOT
    ensures Leads(cast, y0, y') && At(y', c', st, {0}) && Pair(c', Act(SVerdict(0, 0, w), []), w, Act(IWait, [TASK]))
    ensures SameRights(y.k, y'.k)
  {
    y', c' := Tell(cast, y0, y, c, st, {0}, w, TASK_INSPECT, U64(0));
  }

  lemma TaskScene(cast: Cast, y0: System, y: System, c: Crew, st: StoreSpec.Store, w: nat) returns (y': System, c': Crew)
    requires Leads(cast, y0, y) && At(y, c, st, {0}) && Pair(c, Act(SVerdict(0, 0, w), []), w, Act(IWait, [TASK]))
    ensures Leads(cast, y0, y') && At(y', c', st, {0}) && Pair(c', Act(SVerdict(0, 0, w), []), w, Act(IRead(SCANNER_SLOT, 0), []))
    ensures SameRights(y.k, y'.k) && y'.k.current == w
  {
    y', c' := EnterAndHear(cast, y0, y, c, st, {0}, w, TASK);
    TaskCrew(c, w, c');
  }

  lemma TaskCrew(c: Crew, w: nat, c': Crew)
    requires Pair(c, Act(SVerdict(0, 0, w), []), w, Act(IWait, [TASK])) && Moved(c, w, Received(TASK), w, [], c')
    ensures Pair(c', Act(SVerdict(0, 0, w), []), w, Act(IRead(SCANNER_SLOT, 0), []))
  {
    SmallIds();
  }

  /** The inspector sees nothing and passes it; Scanner takes the verdict. */
  lemma ActFour(cast: Cast, y0: System, y: System, c: Crew, st: StoreSpec.Store, w: nat) returns (y': System, c': Crew)
    requires Leads(cast, y0, y) && At(y, c, st, {0}) && Pair(c, Act(SVerdict(0, 0, w), []), w, Act(IRead(SCANNER_SLOT, 0), []))
    requires MayTalk(y.k, w) && y.k.current == w && !HasCap(Me(y.k), CAP_READ_OBJECT, 0)
    ensures Leads(cast, y0, y') && y'.k.current == SCANNER_SLOT && At(y', c', st, {0}) && Judging(c', 3)
  {
    var y1, c1 := ReadNothing(cast, y0, y, c, st, {0}, 0);
    ReadCrew(c, w, c1);
    var y2, c2 := AnswerScene(cast, y0, y1, c1, st, w);
    y', c' := VerdictScene(cast, y0, y2, c2, st, w);
  }

  /** Without bytes there is no marker. */
  lemma ReadCrew(c: Crew, w: nat, c': Crew)
    requires Pair(c, Act(SVerdict(0, 0, w), []), w, Act(IRead(SCANNER_SLOT, 0), [])) && Moved(c, w, Bytes(None), w, [], c')
    ensures Pair(c', Act(SVerdict(0, 0, w), []), w, Act(ISend(SCANNER_SLOT, 0, false), []))
  {
  }

  lemma AnswerScene(cast: Cast, y0: System, y: System, c: Crew, st: StoreSpec.Store, w: nat) returns (y': System, c': Crew)
    requires Leads(cast, y0, y) && At(y, c, st, {0}) && Pair(c, Act(SVerdict(0, 0, w), []), w, Act(ISend(SCANNER_SLOT, 0, false), []))
    requires MayTalk(y.k, w) && y.k.current == w
    ensures Leads(cast, y0, y') && At(y', c', st, {0}) && Has(c', SCANNER_SLOT, SVerdict(0, 0, w), [Pass(w)])
  {
    y', c' := Tell(cast, y0, y, c, st, {0}, SCANNER_SLOT, MSG_CHECK_PASS, U64(0));
  }

  /** Scanner still has this many promotions to make. */
  predicate Judging(c: Crew, left: nat) {
    Has(c, SCANNER_SLOT, if left > 0 then SPromote(0, 0, left) else STellReader(0, 0), [])
  }

  lemma VerdictScene(cast: Cast, y0: System, y: System, c: Crew, st: StoreSpec.Store, w: nat) returns (y': System, c': Crew)
    requires Leads(cast, y0, y) && At(y, c, st, {0}) && Has(c, SCANNER_SLOT, SVerdict(0, 0, w), [Pass(w)])
    ensures Leads(cast, y0, y') && y'.k.current == SCANNER_SLOT && At(y', c', st, {0}) && Judging(c', 3)
  {
    y', c' := EnterAndHear(cast, y0, y, c, st, {0}, SCANNER_SLOT, Pass(w));
    VerdictCrew(c, w, c');
  }

  lemma VerdictCrew(c: Crew, w: nat, c': Crew)
    requires Has(c, SCANNER_SLOT, SVerdict(0, 0, w), [Pass(w)]) && Moved(c, SCANNER_SLOT, Received(Pass(w)), SCANNER_SLOT, [], c')
    ensures Judging(c', 3)
  {
  }

  /** The promotions. */
  lemma {:induction false} ActFive(cast: Cast, y0: System, y: System, c: Crew, item: QuarantineView.Item, left: nat) returns (y': System)
    requires Leads(cast, y0, y) && At(y, c, y.k.store, {0}) && Judging(c, left) && y.k.current == SCANNER_SLOT && Holds(y.k.store, item)
    requires HasCap(Me(y.k), CAP_PROMOTE_OBJECT, 0) && item.trust + left == Directory.TRUSTED
    ensures Leads(cast, y0, y') && Holds(y'.k.store, item.(trust := Directory.TRUSTED))
    decreases left
  {
    if left == 0 {
      y' := y;
    } else {
      var y1, c1 := PromoteScene(cast, y0, y, c, item, left);
      y' := ActFive(cast, y0, y1, c1, item.(trust := item.trust + 1), left - 1);
    }
  }

  lemma PromoteScene(cast: Cast, y0: System, y: System, c: Crew, item: QuarantineView.Item, left: nat) returns (y': System, c': Crew)
    requires Leads(cast, y0, y) && At(y, c, y.k.store, {0}) && 0 < left && Judging(c, left) && y.k.current == SCANNER_SLOT
    requires HasCap(Me(y.k), CAP_PROMOTE_OBJECT, 0) && Holds(y.k.store, item) && item.trust < Directory.TRUSTED
    ensures Leads(cast, y0, y') && At(y', c', y'.k.store, {0}) && Judging(c', left - 1)
    ensures Holds(y'.k.store, item.(trust := item.trust + 1))
    ensures y'.k.current == SCANNER_SLOT && HasCap(Me(y'.k), CAP_PROMOTE_OBJECT, 0)
  {
    y', c' := StoreCall(cast, y0, y, c, y.k.store, {0}, SysPromote(0), item);
    PromoteCrew(c, left, c');
    PromotedItem(Me(y.k), item);
    SameCaps(y.k, y'.k, SCANNER_SLOT);
  }

  lemma PromotedItem(me: Actor, item: QuarantineView.Item)
    requires HasCap(me, CAP_PROMOTE_OBJECT, 0) && item.trust < Directory.TRUSTED
    ensures QuarantineView.ItemAfter(me, item, SysPromote(0), 0) == item.(trust := item.trust + 1)
  {
  }

  lemma SameCaps(k: Kernel, k': Kernel, s: nat)
    requires SameRights(k, k') && SlotOk(k, s)
    ensures k'.actors[s].caps == k.actors[s].caps
  {
    assert SameRow(k.actors[s], k'.actors[s]);
  }

  lemma PromoteCrew(c: Crew, left: nat, c': Crew)
    requires 0 < left && Judging(c, left) && Moved(c, SCANNER_SLOT, Suspended, SCANNER_SLOT, [], c')
    ensures Judging(c', left - 1)
  {
  }

  // ---- what the invariant says of the two ----------------------------------------------------

  lemma WhatInvSays(cast: Cast, y0: System, y: System)
    requires QuarantineSafety.Booted(cast, y0) && Leads(cast, y0, y)
    ensures QuarantineSafety.SystemInv(cast, y)
  {
    var ys, es :| QuarantineSafety.IsPipelineRun(cast, ys, es) && ys[0] == y0 && ys[|es|] == y;
    QuarantineSafety.AlwaysInv(cast, ys, es, |es|);
  }

  lemma ScannerPromotes(cast: Cast, y: System)
    requires cast == SomeCast(cast.payload, cast.suspicious) && QuarantineSafety.SystemInv(cast, y)
    requires SCANNER_SLOT < |y.pcs| == |y.k.actors| && IsS(y.pcs[SCANNER_SLOT]) && !y.k.actors[SCANNER_SLOT].state.Dead?
    ensures HasCap(y.k.actors[SCANNER_SLOT], CAP_PROMOTE_OBJECT, 0)
  {
    var t := QuarantineSafety.ShadowOf(y);
    assert t.v.alive[SCANNER_SLOT] == Lifecycle.Alive(y.k, SCANNER_SLOT);
    assert QuarantineInvariant.ScannerActs(cast, t);
    assert t.v.caps[SCANNER_SLOT] == QuarantineView.CapsOf(y.k.actors[SCANNER_SLOT]);
  }

  lemma InspectorBlind(cast: Cast, y: System, w: nat)
    requires cast == SomeCast(cast.payload, cast.suspicious) && QuarantineSafety.SystemInv(cast, y) && y.refused == {0}
    requires SCANNER_SLOT < w < |y.pcs| == |y.k.actors| && y.pcs[SCANNER_SLOT] == SVerdict(0, 0, w)
    requires y.pcs[w].IRead? && !y.k.actors[w].state.Dead?
    ensures !HasCap(y.k.actors[w], CAP_READ_OBJECT, 0)
  {
    var t := QuarantineSafety.ShadowOf(y);
    assert t.v.alive[w] == Lifecycle.Alive(y.k, w);
    assert QuarantineInvariant.Inspects(t, w);
    assert QuarantineInvariant.InspectorOk(cast, t, w);
    assert t.v.caps[w] == QuarantineView.CapsOf(y.k.actors[w]);
  }

  lemma OnStage(k: Kernel, pcs: seq<Pc>, c: Crew, n: int)
    requires Plays(k, pcs, c) && n in c
    ensures |pcs| == |k.actors| && n < |pcs| && pcs[n] == c[n].pc && !k.actors[n].state.Dead?
  {
    assert Stands(k, n, c[n].mail);
  }

  lemma CannotRead(cast: Cast, y0: System, y: System, c: Crew, st: StoreSpec.Store, w: nat)
    requires cast == SomeCast(cast.payload, cast.suspicious) && QuarantineSafety.Booted(cast, y0) && Leads(cast, y0, y)
    requires At(y, c, st, {0}) && Pair(c, Act(SVerdict(0, 0, w), []), w, Act(IRead(SCANNER_SLOT, 0), [])) && SlotOk(y.k, w)
    ensures !HasCap(y.k.actors[w], CAP_READ_OBJECT, 0)
  {
    WhatInvSays(cast, y0, y);
    OnStage(y.k, y.pcs, c, w);
    OnStage(y.k, y.pcs, c, SCANNER_SLOT);
    InspectorBlind(cast, y, w);
  }

  lemma CanPromote(cast: Cast, y0: System, y: System, c: Crew, st: StoreSpec.Store)
    requires cast == SomeCast(cast.payload, cast.suspicious) && QuarantineSafety.Booted(cast, y0) && Leads(cast, y0, y)
    requires At(y, c, st, {0}) && Judging(c, 3) && SlotOk(y.k, SCANNER_SLOT)
    ensures HasCap(y.k.actors[SCANNER_SLOT], CAP_PROMOTE_OBJECT, 0)
  {
    WhatInvSays(cast, y0, y);
    OnStage(y.k, y.pcs, c, SCANNER_SLOT);
    ScannerPromotes(cast, y);
  }

  // ---- from kernel_main to the end ------------------------------------------------------------

  lemma Opening(cast: Cast, k: Kernel) returns (c: Crew)
    requires cast == SomeCast(cast.payload, cast.suspicious) && KernelMain.Up(k, KernelMain.Grants())
    ensures At(QuarantineBoot.FirstSystem(cast, k), c, k.store, {}) && Trio(c, DWrite(0), SWait(0), [])
  {
    var y := QuarantineBoot.FirstSystem(cast, k);
    c := map[DOWNLOADER_SLOT := Act(DWrite(0), []), SCANNER_SLOT := Act(SWait(0), []), NETWORK_PEER_SLOT := Act(Other, [])];
    forall n | n in c
      ensures Stands(k, n, c[n].mail)
    {
      UpStands(k, n);
    }
  }

  lemma UpStands(k: Kernel, n: nat)
    requires KernelMain.Up(k, KernelMain.Grants()) && n < KernelMain.ACTORS
    ensures Stands(k, n, [])
  {
    assert KernelMain.UpRow(k.actors[n], KernelMain.Grants(), n);
  }

  lemma DownloaderRights(k: Kernel)
    requires KernelMain.Up(k, KernelMain.Grants())
    ensures HasCap(k.actors[DOWNLOADER_SLOT], CAP_WRITE_OBJECT, 0) && HasCap(k.actors[DOWNLOADER_SLOT], CAP_SEND, SCANNER_SLOT)
  {
    KernelMain.GrantsDoFit();
    KernelMain.GrantHeld(k, 2);
    KernelMain.GrantHeld(k, 4);
  }

  lemma SpawnAndNetRights(k: Kernel)
    requires KernelMain.Up(k, KernelMain.Grants())
    ensures HasCap(k.actors[SCANNER_SLOT], CAP_SPAWN, 0) && HasCap(k.actors[NETWORK_PEER_SLOT], CAP_NET, 0)
  {
    KernelMain.GrantsDoFit();
    KernelMain.GrantHeld(k, 8);
    KernelMain.GrantHeld(k, 13);
  }

  /** Everything Scanner's spawn needs is still there when it comes to it. */
  lemma SpawnReady(k: Kernel, k': Kernel)
    requires KernelMain.Up(k, KernelMain.Grants()) && SameRights(k, k') && Started(k') && k'.current == SCANNER_SLOT
    ensures MaySpawn(k') && !TableFull(Me(k')) && RoomFor(k', KernelMain.ACTORS)
    ensures SlotOk(k', NETWORK_PEER_SLOT) && HasCap(k'.actors[NETWORK_PEER_SLOT], CAP_NET, 0)
  {
    SpawnAndNetRights(k);
    KernelMain.ScannerHasRoom(k);
    KernelMain.RoomForOneMore(k);
    SameRoom(k, k', KernelMain.ACTORS);
    assert KernelMain.UpRow(k.actors[SCANNER_SLOT], KernelMain.Grants(), SCANNER_SLOT);
    assert SameRow(k.actors[SCANNER_SLOT], k'.actors[SCANNER_SLOT]) && SameRow(k.actors[NETWORK_PEER_SLOT], k'.actors[NETWORK_PEER_SLOT]);
  }

  /** The whole play. */
  lemma Play(cast: Cast, k: Kernel) returns (y: System)
    requires cast == SomeCast(cast.payload, cast.suspicious) && |cast.payload| <= Directory.OBJECT_MAX_BYTES
    requires KernelMain.Up(k, KernelMain.Grants()) && KernelMain.TwoUntrusted(k.store)
    requires QuarantineSafety.Booted(cast, QuarantineBoot.FirstSystem(cast, k))
    ensures Leads(cast, QuarantineBoot.FirstSystem(cast, k), y)
    ensures Holds(y.k.store, QuarantineView.Item(cast.payload, Directory.TRUSTED))
  {
    var y0, w := QuarantineBoot.FirstSystem(cast, k), KernelMain.ACTORS;
    var c := Opening(cast, k);
    DownloaderRights(k);
    LeadsNowhere(cast, y0);
    var y1, c1 := ActOne(cast, y0, y0, c, QuarantineView.ItemIn(k.store, 0));
    SpawnReady(k, y1.k);
    var y2, c2 := ActTwo(cast, y0, y1, c1, y1.k.store, w);
    var y3, c3 := ActThree(cast, y0, y2, c2, y1.k.store, w);
    y := Curtain(cast, y0, y3, c3, QuarantineView.Item(cast.payload, Directory.UNTRUSTED), w);
  }

  lemma Curtain(cast: Cast, y0: System, y: System, c: Crew, item: QuarantineView.Item, w: nat) returns (y': System)
    requires cast == SomeCast(cast.payload, cast.suspicious) && QuarantineSafety.Booted(cast, y0) && Leads(cast, y0, y)
    requires At(y, c, y.k.store, {0}) && Pair(c, Act(SVerdict(0, 0, w), []), w, Act(IRead(SCANNER_SLOT, 0), []))
    requires MayTalk(y.k, w) && y.k.current == w && Holds(y.k.store, item) && item.trust == Directory.UNTRUSTED
    ensures Leads(cast, y0, y') && Holds(y'.k.store, item.(trust := Directory.TRUSTED))
  {
    CannotRead(cast, y0, y, c, y.k.store, w);
    var y1, c1 := ActFour(cast, y0, y, c, y.k.store, w);
    CanPromote(cast, y0, y1, c1, y1.k.store);
    y' := ActFive(cast, y0, y1, c1, item, 3);
  }

  /**
    For every marked content kernel_main's own start has a continuation, every
    actor within its rights, after which that content is TRUSTED.
   */
  lemma BadBecomesTrusted(payload: seq<byte>, suspicious: seq<byte>, entries: seq<nat>, hello: seq<byte>)
    returns (cast: Cast, ks: seq<Kernel>, ys: seq<System>, es: seq<Event>)
    requires |payload| <= Directory.OBJECT_MAX_BYTES && |suspicious| <= Directory.OBJECT_MAX_BYTES && Marked(Inspected(payload))
    requires |entries| == KernelMain.ACTORS
    ensures var boot := KernelMain.KernelMain(entries, hello);
            && QuarantineBoot.BootRun(ks, boot) && ks[0] == Booting()
            && |ys| > 0 && ys[0] == QuarantineBoot.FirstSystem(cast, ks[|boot|]) && QuarantineSafety.Booted(cast, ys[0])
    ensures QuarantineSafety.IsPipelineRun(cast, ys, es) && QuarantineSafety.Bad(cast, PAYLOAD_OBJECT_ID)
    ensures Holds(ys[|es|].k.store, QuarantineView.Item(payload, Directory.TRUSTED))
  {
    cast := SomeCast(payload, suspicious);
    ks := QuarantineBoot.KernelMainReachesBooted(cast, entries, hello);
    var k := ks[|KernelMain.KernelMain(entries, hello)|];
    var y := Play(cast, k);
    ys, es :| QuarantineSafety.IsPipelineRun(cast, ys, es) && ys[0] == QuarantineBoot.FirstSystem(cast, k) && ys[|es|] == y;
  }
}
