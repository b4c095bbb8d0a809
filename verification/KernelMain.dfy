/** kernel_main's own sequence of spawns, creations and grants (core/main.c), from power-on to the first scheduling decision. */
module KernelMain {
  import opened Options
  import opened Words
  import opened ActorTable
  import opened Kernel
  import opened Machine
  import Directory
  import PageFrames
  import Paging
  import Scenes
  import StoreProperties
  import StoreRefinement
  import StoreSpec

  const ACTORS: nat := 15
  const MAILBOX_RECEIVER_SLOT: nat := 4
  const MAILBOX_SENDER_SLOT: nat := 5
  const COORDINATOR_SLOT: nat := 7
  const PROGRAM_LOADER_SLOT: nat := 12
  const NAMESPACE_DEMO_SLOT: nat := 13
  const SHELL_SLOT: nat := 14
  const HELLO_PROGRAM_OBJECT_ID: int := 2
  const SHELL_SPAWN_QUOTA: int := 6
  const CONSOLE_WIN_SHELL: int := 1

  /** One boot grant: to whom, and what. */
  datatype Grant = Grant(dest: nat, cap: Capability)

  function Grants(): seq<Grant> {
    [Grant(MAILBOX_SENDER_SLOT, Capability(CAP_SEND, MAILBOX_RECEIVER_SLOT)),
     Grant(COORDINATOR_SLOT, Capability(CAP_SPAWN, 0)),
     Grant(DOWNLOADER_SLOT, Capability(CAP_WRITE_OBJECT, 0)),
     Grant(DOWNLOADER_SLOT, Capability(CAP_WRITE_OBJECT, 1)),
     Grant(DOWNLOADER_SLOT, Capability(CAP_SEND, SCANNER_SLOT)),
     Grant(SCANNER_SLOT, Capability(CAP_READ_OBJECT, 0)),
     Grant(SCANNER_SLOT, Capability(CAP_READ_OBJECT, 1)),
     Grant(SCANNER_SLOT, Capability(CAP_PROMOTE_OBJECT, 0)),
     Grant(SCANNER_SLOT, Capability(CAP_SPAWN, 0)),
     Grant(SCANNER_SLOT, Capability(CAP_SEND, READER_SLOT)),
     Grant(SCANNER_SLOT, Capability(CAP_SEND, DOWNLOADER_SLOT)),
     Grant(READER_SLOT, Capability(CAP_READ_OBJECT, 0)),
     Grant(READER_SLOT, Capability(CAP_READ_OBJECT, 1)),
     Grant(NETWORK_PEER_SLOT, Capability(CAP_NET, 0)),
     Grant(PROGRAM_LOADER_SLOT, Capability(CAP_SPAWN, 0)),
     Grant(PROGRAM_LOADER_SLOT, Capability(CAP_READ_OBJECT, HELLO_PROGRAM_OBJECT_ID)),
     Grant(NAMESPACE_DEMO_SLOT, Capability(CAP_LIST_NAMES, 0)),
     Grant(NAMESPACE_DEMO_SLOT, Capability(CAP_CREATE_OBJECT, 0)),
     Grant(SHELL_SLOT, Capability(CAP_CONSOLE, 0)),
     Grant(SHELL_SLOT, Capability(CAP_SPAWN, 0)),
     Grant(SHELL_SLOT, Capability(CAP_LIST_NAMES, 0)),
     Grant(SHELL_SLOT, Capability(CAP_READ_OBJECT, HELLO_PROGRAM_OBJECT_ID))]
  }

  // ---- the table while kernel_main fills it -----------------------------------------------

  /** What was granted to slot s, in order. */
  function GrantedTo(gs: seq<Grant>, s: nat): (r: seq<Capability>)
    ensures |r| <= |gs|
  {
    if gs == [] then []
    else
      var before, last := GrantedTo(gs[..|gs| - 1], s), gs[|gs| - 1];
      if last.dest == s then before + [last.cap] else before
  }

  function Padded(cs: seq<Capability>): (r: seq<Capability>)
    ensures |cs| <= MAX_CAPS_PER_ACTOR ==> |r| == MAX_CAPS_PER_ACTOR
  {
    cs + seq(if |cs| <= MAX_CAPS_PER_ACTOR then MAX_CAPS_PER_ACTOR - |cs| else 0, i => NO_CAP)
  }

  /** The quota and the pane every actor starts with. */
  predicate Plain(a: Actor) {
    a.spawnQuota == 2 && a.window == 0
  }

  /** A row during boot: slot s of which the first n have been spawned. */
  predicate BootRow(a: Actor, s: nat, n: nat, gs: seq<Grant>) {
    && ActorOk(a) && a.count == 0 && !a.inReceive && a.caps == Padded(GrantedTo(gs, s))
    && a.spawnCount == 0 && a.spawnQuota >= MAX_SPAWNS_PER_ACTOR && (s < n && s != SHELL_SLOT ==> Plain(a))
    && (if s < n then a.state.Ready? else a.state.Dead? && a.stackPage == 0)
  }

  /** The allocator has given out its first n pages. */
  predicate BootMemory(m: PageFrames.Mem, n: nat) {
    && |m.used| == PAGES && m.top == PageFrames.Addr(PAGES) && m.freeList == [] && m.next == n
    && forall i :: n <= i < PAGES ==> !m.used[i]
  }

  predicate BootState(k: Kernel, n: nat, gs: seq<Grant>) {
    && WF(k) && k.current == -1 && !k.halted && |k.actors| == MAX_ACTORS
    && (forall s: nat :: s < MAX_ACTORS ==> BootRow(k.actors[s], s, n, gs))
    && BootMemory(k.mem, n) && k.spaces.layout == SomeSpaces().layout
  }

  /** Every grant is to an actor already spawned, and nobody gets more than its table holds. */
  predicate GrantsFit(gs: seq<Grant>) {
    && (forall i :: 0 <= i < |gs| ==> gs[i].dest < ACTORS && gs[i].cap.op != 0)
    && (forall s: nat :: s < MAX_ACTORS ==> |GrantedTo(gs, s)| <= MAX_CAPS_PER_ACTOR)
  }

  lemma PowerOn()
    ensures BootState(Booting(), 0, [])
  {
    MachineExists();
    var k := Booting();
    forall s: nat | s < MAX_ACTORS
      ensures BootRow(k.actors[s], s, 0, [])
    {
      assert k.actors[s] == EmptyRow();
      assert k.actors[s].caps == Padded([]);
    }
  }

  lemma NextPage(m: PageFrames.Mem, n: nat)
    requires BootMemory(m, n) && n < MAX_ACTORS
    ensures var (m', page) := PageFrames.AllocPage(m); page == Some(PageFrames.Addr(n)) && BootMemory(m', n + 1)
  {
    assert PageFrames.FirstFree(m, n) == n;
  }

  lemma SpawnNext(k: Kernel, n: nat, entry: nat)
    requires BootState(k, n, []) && n < MAX_ACTORS
    ensures var (k', slot) := Spawn(k, entry); slot == n && BootState(k', n + 1, []) && k'.store == k.store
  {
    NextPage(k.mem, n);
    Scenes.FirstDeadIs(k.actors, n, 0);
    var page := PageFrames.Addr(n);
    var (sp, cr3) := Paging.CreateSpace(k.spaces, n, page, STACK_SIZE);
    assert cr3 == k.spaces.layout.pml4 + n;
    var (k', slot) := Spawn(k, entry);
    forall s: nat | s < MAX_ACTORS
      ensures BootRow(k'.actors[s], s, n + 1, [])
    {
      assert BootRow(k.actors[s], s, n, []);
      if s == n {
        assert k'.actors[n].caps == Padded([]);
      }
    }
  }

  lemma GrantNext(k: Kernel, gs: seq<Grant>, g: Grant)
    requires BootState(k, ACTORS, gs) && g.dest < ACTORS && g.cap.op != 0 && GrantsFit(gs) && |GrantedTo(gs, g.dest)| < MAX_CAPS_PER_ACTOR
    ensures var (k', rc) := GrantTo(k, g.dest, g.cap.op, g.cap.target); rc == 0 && BootState(k', ACTORS, gs + [g]) && k'.store == k.store
  {
    var k' := GrantTo(k, g.dest, g.cap.op, g.cap.target).0;
    var a := k.actors[g.dest];
    assert BootRow(a, g.dest, ACTORS, gs);
    NextEntry(gs, g);
    assert (gs + [g])[..|gs|] == gs;
    forall s: nat | s < MAX_ACTORS
      ensures BootRow(k'.actors[s], s, ACTORS, gs + [g])
    {
      assert BootRow(k.actors[s], s, ACTORS, gs);
    }
  }

  /** The first empty entry is the one after everything granted so far. */
  lemma NextEntry(gs: seq<Grant>, g: Grant)
    requires GrantsFit(gs) && g.cap.op != 0 && |GrantedTo(gs, g.dest)| < MAX_CAPS_PER_ACTOR
    ensures var caps := Padded(GrantedTo(gs, g.dest));
            && FreeCap(caps) == |GrantedTo(gs, g.dest)|
            && caps[FreeCap(caps) := g.cap] == Padded(GrantedTo(gs + [g], g.dest))
  {
    var cs := GrantedTo(gs, g.dest);
    var caps := Padded(cs);
    assert (gs + [g])[..|gs|] == gs;
    forall i | 0 <= i < |cs|
      ensures caps[i].op != 0
    {
      GrantedIsReal(gs, g.dest, cs[i]);
    }
    assert caps[|cs|] == NO_CAP;
    assert caps[|cs| := g.cap] == Padded(cs + [g.cap]);
  }

  lemma {:induction false} GrantedIsReal(gs: seq<Grant>, s: nat, c: Capability)
    requires c in GrantedTo(gs, s) && forall i :: 0 <= i < |gs| ==> gs[i].cap.op != 0
    ensures c.op != 0
  {
    var before, last := gs[..|gs| - 1], gs[|gs| - 1];
    if c in GrantedTo(before, s) {
      GrantedIsReal(before, s, c);
    }
  }

  // ---- the sequence ----------------------------------------------------------------------------

  const PAYLOAD_NAME: Directory.CString := // payload.bin
    ['p' as int, 'a' as int, 'y' as int, 'l' as int, 'o' as int, 'a' as int, 'd' as int, '.' as int, 'b' as int, 'i' as int, 'n' as int]
  const SUSPICIOUS_NAME: Directory.CString := // suspicious.bin
    ['s' as int, 'u' as int, 's' as int, 'p' as int, 'i' as int, 'c' as int, 'i' as int, 'o' as int, 'u' as int, 's' as int,
     '.' as int, 'b' as int, 'i' as int, 'n' as int]
  const HELLO_NAME: Directory.CString := // hello.bin
    ['h' as int, 'e' as int, 'l' as int, 'l' as int, 'o' as int, '.' as int, 'b' as int, 'i' as int, 'n' as int]

  function Spawns(entries: seq<nat>): (es: seq<Event>)
    ensures |es| == |entries|
  {
    seq(|entries|, i requires 0 <= i < |entries| => BootSpawn(entries[i]))
  }

  function GrantEvents(gs: seq<Grant>): (es: seq<Event>)
    ensures |es| == |gs|
  {
    seq(|gs|, i requires 0 <= i < |gs| => BootGrant(gs[i].dest, gs[i].cap.op, gs[i].cap.target))
  }

  function Creations(hello: seq<byte>): seq<Event> {
    [BootCreate(PAYLOAD_NAME), BootCreate(SUSPICIOUS_NAME), BootCreate(HELLO_NAME), BootWrite(HELLO_PROGRAM_OBJECT_ID, hello)]
  }

  /** Everything kernel_main does to the actor table and the store, in order. */
  function KernelMain(entries: seq<nat>, hello: seq<byte>): seq<Event> {
    Spawns(entries) + Creations(hello) + GrantEvents(Grants())
    + [BootQuota(SHELL_SLOT, SHELL_SPAWN_QUOTA), BootWindow(SHELL_SLOT, CONSOLE_WIN_SHELL), Start]
  }

  ghost predicate Boots(k0: Kernel, es: seq<Event>, k: Kernel) {
    exists ks :: IsRun(ks, es) && ks[0] == k0 && ks[|es|] == k
  }

  lemma BootsNowhere(k: Kernel)
    ensures Boots(k, [], k)
  {
    assert IsRun([k], []);
  }

  lemma RunAppends(ks: seq<Kernel>, es: seq<Event>, e: Event, k': Kernel)
    requires IsRun(ks, es) && Enabled(ks[|es|], e) && k' == Step(ks[|es|], e).0
    ensures IsRun(ks + [k'], es + [e])
  {
    var ks', es' := ks + [k'], es + [e];
    forall i | 0 <= i < |es'|
      ensures Enabled(ks'[i], es'[i]) && ks'[i + 1] == Step(ks'[i], es'[i]).0
    {
      if i < |es| {
        assert ks'[i] == ks[i] && es'[i] == es[i] && ks'[i + 1] == ks[i + 1];
        assert Enabled(ks[i], es[i]) && ks[i + 1] == Step(ks[i], es[i]).0;
      } else {
        assert ks'[i] == ks[|es|] && es'[i] == e && ks'[i + 1] == k';
      }
    }
  }

  lemma BootsOn(k0: Kernel, es: seq<Event>, k: Kernel, e: Event, es': seq<Event>)
    requires Boots(k0, es, k) && Enabled(k, e) && es' == es + [e]
    ensures Boots(k0, es', Step(k, e).0)
  {
    var ks :| IsRun(ks, es) && ks[0] == k0 && ks[|es|] == k;
    var k' := Step(k, e).0;
    RunAppends(ks, es, e, k');
    assert IsRun(ks + [k'], es') && (ks + [k'])[0] == k0 && (ks + [k'])[|es'|] == k';
  }

  lemma {:induction false} SpawnAll(entries: seq<nat>, i: nat) returns (k: Kernel)
    requires i <= |entries| <= MAX_ACTORS
    ensures Boots(Booting(), Spawns(entries[..i]), k) && BootState(k, i, []) && k.store == Booting().store
  {
    if i == 0 {
      PowerOn();
      k := Booting();
      BootsNowhere(k);
      assert Spawns(entries[..0]) == [];
    } else {
      var k1 := SpawnAll(entries, i - 1);
      var e := BootSpawn(entries[i - 1]);
      assert Spawns(entries[..i]) == Spawns(entries[..i - 1]) + [e];
      BootsOn(Booting(), Spawns(entries[..i - 1]), k1, e, Spawns(entries[..i]));
      SpawnNext(k1, i - 1, entries[i - 1]);
      k := Step(k1, e).0;
    }
  }

  // ---- the three objects ---------------------------------------------------------------------

  /** The first n objects, empty and untrusted, under these names. */
  ghost predicate Objects(s: StoreSpec.Store, names: seq<Directory.CString>) {
    && StoreRefinement.StoreInv(s) && |s.objects| == MAX_OBJECTS && |names| <= MAX_OBJECTS
    && (forall i: nat :: i in StoreRefinement.ViewOf(s) <==> i < |names|)
    && (forall i: nat :: i < |names| ==> StoreRefinement.ViewOf(s)[i] == StoreRefinement.Entity(names[i], [], Directory.UNTRUSTED))
  }

  lemma CreateNext(s: StoreSpec.Store, names: seq<Directory.CString>, name: Directory.CString)
    requires Objects(s, names) && |names| < MAX_OBJECTS && name !in names && |name| <= StoreProperties.NAME_MAX
    ensures Objects(StoreSpec.CreateObject(s, name).0, names + [name])
  {
    var v := StoreRefinement.ViewOf(s);
    forall id | id in v
      ensures v[id].name != name
    {
      assert names[id] in names;
    }
    StoreRefinement.LookupRefines(s, name);
    StoreProperties.CreateFresh(s, name);
    var (s', id) := StoreSpec.CreateNamed(s, name);
    assert StoreSpec.CreateObject(s, name) == (s', id);
    NextIdIs(v, |names|, id);
    assert Directory.Truncate(name) == name;
  }

  lemma NextIdIs(v: StoreRefinement.View, n: nat, id: int)
    requires StoreRefinement.NextId(v, MAX_OBJECTS, id) && n < MAX_OBJECTS && forall i: nat :: i in v <==> i < n
    ensures id == n
  {
    assert n !in v;
  }

  lemma BlankObjects()
    ensures Objects(Booting().store, [])
  {
    MachineExists();
    BlankDiskHasNoMagic();
    StoreRefinement.FirstBoot(MAX_OBJECTS, BlankDisk());
  }

  /** A boot-time storage call changes the store and nothing else. */
  lemma StoreOnly(k: Kernel, n: nat, gs: seq<Grant>, e: Event)
    requires BootState(k, n, gs) && (e.BootCreate? || e.BootWrite?)
    ensures Enabled(k, e) && BootState(Step(k, e).0, n, gs)
    ensures Step(k, e).0.store == if e.BootCreate? then StoreSpec.CreateObject(k.store, e.name).0 else StoreSpec.Write(k.store, e.id, e.buf).0
  {
  }

  /** The names are new each time, and the seeded program is not one of the pipeline's objects. */
  lemma CreateAll(k: Kernel, es: seq<Event>, hello: seq<byte>) returns (k': Kernel)
    requires Boots(Booting(), es, k) && BootState(k, ACTORS, []) && k.store == Booting().store
    ensures Boots(Booting(), es + Creations(hello), k') && BootState(k', ACTORS, []) && TwoUntrusted(k'.store)
    ensures HoldsProgram(k'.store, hello)
  {
    BlankObjects();
    NamesDiffer();
    var k1 := CreateStep(k, es, [], PAYLOAD_NAME);
    var es1 := es + [BootCreate(PAYLOAD_NAME)];
    var k2 := CreateStep(k1, es1, [] + [PAYLOAD_NAME], SUSPICIOUS_NAME);
    var es2 := es1 + [BootCreate(SUSPICIOUS_NAME)];
    var k3 := CreateStep(k2, es2, [] + [PAYLOAD_NAME] + [SUSPICIOUS_NAME], HELLO_NAME);
    var es3 := es2 + [BootCreate(HELLO_NAME)];
    k' := SeedStep(k3, es3, hello);
    FourMore(es, BootCreate(PAYLOAD_NAME), BootCreate(SUSPICIOUS_NAME), BootCreate(HELLO_NAME), BootWrite(HELLO_PROGRAM_OBJECT_ID, hello));
  }

  lemma FourMore(es: seq<Event>, a: Event, b: Event, c: Event, d: Event)
    ensures es + [a] + [b] + [c] + [d] == es + [a, b, c, d]
  {
  }

  lemma NamesDiffer()
    ensures SUSPICIOUS_NAME !in [] + [PAYLOAD_NAME] && HELLO_NAME !in [] + [PAYLOAD_NAME] + [SUSPICIOUS_NAME]
    ensures [] + [PAYLOAD_NAME] + [SUSPICIOUS_NAME] + [HELLO_NAME] == [PAYLOAD_NAME, SUSPICIOUS_NAME, HELLO_NAME]
  {
    assert SUSPICIOUS_NAME[0] != PAYLOAD_NAME[0] && HELLO_NAME[0] != PAYLOAD_NAME[0] && HELLO_NAME[0] != SUSPICIOUS_NAME[0];
  }

  ghost predicate TwoUntrusted(s: StoreSpec.Store) {
    && StoreRefinement.StoreInv(s) && 0 in StoreRefinement.ViewOf(s) && 1 in StoreRefinement.ViewOf(s)
    && StoreRefinement.ViewOf(s)[0].trust == StoreRefinement.ViewOf(s)[1].trust == Directory.UNTRUSTED
  }

  /** The seeded program is in its object, byte for byte, if it fits. */
  ghost predicate HoldsProgram(s: StoreSpec.Store, hello: seq<byte>) {
    && StoreRefinement.StoreInv(s) && HELLO_PROGRAM_OBJECT_ID in StoreRefinement.ViewOf(s)
    && var o := StoreRefinement.ViewOf(s)[HELLO_PROGRAM_OBJECT_ID];
       o.name == HELLO_NAME && (|hello| <= Directory.OBJECT_MAX_BYTES ==> o.bytes == hello)
  }

  lemma CreateStep(k: Kernel, es: seq<Event>, names: seq<Directory.CString>, name: Directory.CString) returns (k': Kernel)
    requires Boots(Booting(), es, k) && BootState(k, ACTORS, []) && Objects(k.store, names)
    requires |names| < MAX_OBJECTS && name !in names && |name| <= StoreProperties.NAME_MAX
    ensures Boots(Booting(), es + [BootCreate(name)], k') && BootState(k', ACTORS, []) && Objects(k'.store, names + [name])
  {
    StoreOnly(k, ACTORS, [], BootCreate(name));
    CreateNext(k.store, names, name);
    BootsOn(Booting(), es, k, BootCreate(name), es + [BootCreate(name)]);
    k' := Step(k, BootCreate(name)).0;
  }

  lemma Seeded(s: StoreSpec.Store, hello: seq<byte>)
    requires Objects(s, [PAYLOAD_NAME, SUSPICIOUS_NAME, HELLO_NAME])
    ensures var s' := StoreSpec.Write(s, HELLO_PROGRAM_OBJECT_ID, hello).0; TwoUntrusted(s') && HoldsProgram(s', hello)
  {
    StoreRefinement.WriteRefines(s, HELLO_PROGRAM_OBJECT_ID, hello);
  }

  lemma SeedStep(k: Kernel, es: seq<Event>, hello: seq<byte>) returns (k': Kernel)
    requires Boots(Booting(), es, k) && BootState(k, ACTORS, []) && Objects(k.store, [PAYLOAD_NAME, SUSPICIOUS_NAME, HELLO_NAME])
    ensures Boots(Booting(), es + [BootWrite(HELLO_PROGRAM_OBJECT_ID, hello)], k') && BootState(k', ACTORS, []) && TwoUntrusted(k'.store)
    ensures HoldsProgram(k'.store, hello)
  {
    var e := BootWrite(HELLO_PROGRAM_OBJECT_ID, hello);
    StoreOnly(k, ACTORS, [], e);
    Seeded(k.store, hello);
    BootsOn(Booting(), es, k, e, es + [e]);
    k' := Step(k, e).0;
  }

  // ---- the grants ---------------------------------------------------------------------------

  lemma {:induction false} GrantAll(k: Kernel, es: seq<Event>, gs: seq<Grant>, i: nat) returns (k': Kernel)
    requires Boots(Booting(), es, k) && BootState(k, ACTORS, []) && i <= |gs| && GrantsFit(gs)
    ensures Boots(Booting(), es + GrantEvents(gs[..i]), k') && BootState(k', ACTORS, gs[..i]) && k'.store == k.store
  {
    if i == 0 {
      k' := k;
      assert es + GrantEvents(gs[..0]) == es;
      assert gs[..0] == [];
    } else {
      var k1 := GrantAll(k, es, gs, i - 1);
      var g := gs[i - 1];
      var e := BootGrant(g.dest, g.cap.op, g.cap.target);
      assert gs[..i] == gs[..i - 1] + [g];
      assert es + GrantEvents(gs[..i]) == es + GrantEvents(gs[..i - 1]) + [e];
      PrefixFits(gs, i);
      GrantNext(k1, gs[..i - 1], g);
      BootsOn(Booting(), es + GrantEvents(gs[..i - 1]), k1, e, es + GrantEvents(gs[..i]));
      k' := Step(k1, e).0;
    }
  }

  lemma PrefixFits(gs: seq<Grant>, i: nat)
    requires GrantsFit(gs) && 0 < i <= |gs|
    ensures GrantsFit(gs[..i - 1]) && |GrantedTo(gs[..i - 1], gs[i - 1].dest)| < MAX_CAPS_PER_ACTOR
  {
    var before, g := gs[..i - 1], gs[i - 1];
    forall s: nat | s < MAX_ACTORS
      ensures |GrantedTo(before, s)| <= MAX_CAPS_PER_ACTOR
    {
      PrefixBound(gs, i - 1, s);
    }
    assert forall j :: 0 <= j < |before| ==> before[j] == gs[j];
    assert GrantsFit(before);
    PrefixBound(gs, i, g.dest);
    assert gs[..i][..i - 1] == before && gs[..i][i - 1] == g;
  }

  lemma PrefixBound(gs: seq<Grant>, i: nat, s: nat)
    requires GrantsFit(gs) && i <= |gs| && s < MAX_ACTORS
    ensures |GrantedTo(gs[..i], s)| <= MAX_CAPS_PER_ACTOR
  {
    GrantedGrows(gs, s, i, |gs|);
    assert gs[..|gs|] == gs;
  }

  lemma {:induction false} GrantedGrows(gs: seq<Grant>, s: nat, i: nat, j: nat)
    requires i <= j <= |gs|
    ensures |GrantedTo(gs[..i], s)| <= |GrantedTo(gs[..j], s)|
    ensures forall c :: c in GrantedTo(gs[..i], s) ==> c in GrantedTo(gs[..j], s)
  {
    if i < j {
      GrantedGrows(gs, s, i, j - 1);
      assert gs[..j][..j - 1] == gs[..j - 1];
    }
  }

  /** Twenty-two grants fit tables of twenty: of the first three no two go to the same actor. */
  lemma GrantsDoFit()
    ensures GrantsFit(Grants())
  {
    forall s: nat | s < MAX_ACTORS
      ensures |GrantedTo(Grants(), s)| <= MAX_CAPS_PER_ACTOR
    {
      var gs := Grants();
      GrantedBound(gs, s, 3);
      assert gs[..3][..2] == gs[..2] && gs[..2][..1] == gs[..1] && gs[..1][..0] == [];
      assert GrantedTo(gs[..1], s) == if gs[0].dest == s then [gs[0].cap] else [];
    }
  }

  lemma {:induction false} GrantedBound(gs: seq<Grant>, s: nat, i: nat)
    requires i <= |gs|
    ensures |GrantedTo(gs, s)| <= |GrantedTo(gs[..i], s)| + |gs| - i
  {
    if i < |gs| {
      var before := gs[..|gs| - 1];
      GrantedBound(before, s, i);
      assert before[..i] == gs[..i];
    } else {
      assert gs[..i] == gs;
    }
  }

  // ---- the scheduler starts ---------------------------------------------------------------

  lemma RowTweaks(k: Kernel, gs: seq<Grant>, e: Event)
    requires BootState(k, ACTORS, gs) && ((e.BootQuota? && e.quota >= MAX_SPAWNS_PER_ACTOR) || e.BootWindow?) && e.slot == SHELL_SLOT
    ensures Enabled(k, e) && BootState(Step(k, e).0, ACTORS, gs) && Step(k, e).0.store == k.store
    ensures var (a, b) := (k.actors[SHELL_SLOT], Step(k, e).0.actors[SHELL_SLOT]);
            if e.BootQuota? then b.spawnQuota == e.quota && b.window == a.window else b.window == e.window && b.spawnQuota == a.spawnQuota
  {
    var k' := Step(k, e).0;
    forall s: nat | s < MAX_ACTORS
      ensures BootRow(k'.actors[s], s, ACTORS, gs)
    {
      assert BootRow(k.actors[s], s, ACTORS, gs);
    }
  }

  /** The scheduler has started: slot 1 runs first, everybody else is as kernel_main left them. */
  ghost predicate Up(k: Kernel, gs: seq<Grant>) {
    && |k.actors| == MAX_ACTORS && k.current == 1 && Scenes.Calm(k)
    && (forall s: nat :: s < ACTORS ==> UpRow(k.actors[s], gs, s))
    && (forall s: nat :: ACTORS <= s < MAX_ACTORS ==> k.actors[s].state.Dead? && |k.actors[s].caps| == MAX_CAPS_PER_ACTOR)
    && BootMemory(k.mem, ACTORS) && k.spaces.layout == SomeSpaces().layout
  }

  predicate UpRow(a: Actor, gs: seq<Grant>, s: nat) {
    && ActorOk(a) && Runnable(a) && !a.inReceive && a.count == 0 && a.caps == Padded(GrantedTo(gs, s))
    && a.spawnCount == 0 && a.spawnQuota >= MAX_SPAWNS_PER_ACTOR && (s != SHELL_SLOT ==> Plain(a))
  }

  lemma BootRows(k: Kernel, gs: seq<Grant>)
    requires BootState(k, ACTORS, gs) && GrantsFit(gs)
    ensures Scenes.Tidy(k) && forall s: nat :: s < ACTORS ==> UpRow(k.actors[s], gs, s)
    ensures forall s: nat :: ACTORS <= s < MAX_ACTORS ==> k.actors[s].state.Dead? && |k.actors[s].caps| == MAX_CAPS_PER_ACTOR
  {
    forall s: nat | s < MAX_ACTORS
      ensures k.actors[s].state.Dead? ==> k.actors[s].stackPage == 0
      ensures if s < ACTORS then UpRow(k.actors[s], gs, s) else k.actors[s].state.Dead? && |k.actors[s].caps| == MAX_CAPS_PER_ACTOR
    {
      assert BootRow(k.actors[s], s, ACTORS, gs);
    }
  }

  lemma StartStep(k: Kernel)
    requires WF(k) && k.current == -1 && !k.halted && Scenes.Tidy(k) && |k.actors| > 1 && Runnable(k.actors[1])
    ensures Enabled(k, Start) && Step(k, Start) == (SwitchTo(k, 1), Suspended)
  {
    Scenes.NothingToReap(k, 0);
    assert PickFrom(k.actors, 0, 1) == 1;
    assert Step(k, Start) == (ScheduleNext(k), Suspended);
  }

  lemma StartsUp(k: Kernel, gs: seq<Grant>)
    requires BootState(k, ACTORS, gs) && GrantsFit(gs)
    ensures Enabled(k, Start) && Up(Step(k, Start).0, gs) && Step(k, Start).0.store == k.store
    ensures var (a, b) := (k.actors[SHELL_SLOT], Step(k, Start).0.actors[SHELL_SLOT]); b.spawnQuota == a.spawnQuota && b.window == a.window
  {
    BootRows(k, gs);
    StartStep(k);
    var k' := Step(k, Start).0;
    forall s: nat | s < ACTORS
      ensures UpRow(k'.actors[s], gs, s)
    {
      assert UpRow(k.actors[s], gs, s);
    }
  }

  lemma {:induction false} GrantedIn(gs: seq<Grant>, i: nat)
    requires i < |gs|
    ensures gs[i].cap in GrantedTo(gs, gs[i].dest)
  {
    GrantedGrows(gs, gs[i].dest, i + 1, |gs|);
    assert gs[..|gs|] == gs && gs[..i + 1][..i] == gs[..i] && gs[..i + 1][i] == gs[i];
  }

  /** What kernel_main granted is held. */
  lemma GrantHeld(k: Kernel, i: nat)
    requires i < |Grants()| && Up(k, Grants()) && GrantsFit(Grants())
    ensures HasCap(k.actors[Grants()[i].dest], Grants()[i].cap.op, Grants()[i].cap.target)
  {
    var g := Grants()[i];
    GrantedIn(Grants(), i);
    assert g.cap in Padded(GrantedTo(Grants(), g.dest));
  }

  lemma DownloaderHolds(k: Kernel)
    requires Up(k, Grants()) && GrantsFit(Grants())
    ensures HasCap(k.actors[DOWNLOADER_SLOT], CAP_WRITE_OBJECT, 0) && HasCap(k.actors[DOWNLOADER_SLOT], CAP_WRITE_OBJECT, 1)
  {
    GrantHeld(k, 2);
    GrantHeld(k, 3);
  }

  lemma ScannerHolds(k: Kernel)
    requires Up(k, Grants()) && GrantsFit(Grants())
    ensures HasCap(k.actors[SCANNER_SLOT], CAP_READ_OBJECT, 0) && HasCap(k.actors[SCANNER_SLOT], CAP_READ_OBJECT, 1)
  {
    GrantHeld(k, 5);
    GrantHeld(k, 6);
  }

  lemma ScannerMayPromote(k: Kernel)
    requires Up(k, Grants()) && GrantsFit(Grants())
    ensures HasCap(k.actors[SCANNER_SLOT], CAP_PROMOTE_OBJECT, 0)
  {
    GrantHeld(k, 7);
  }

  /** In particular the rights the quarantine pipeline cannot do without. */
  lemma PipelineHolds(k: Kernel)
    requires Up(k, Grants())
    ensures HasCap(k.actors[DOWNLOADER_SLOT], CAP_WRITE_OBJECT, 0) && HasCap(k.actors[DOWNLOADER_SLOT], CAP_WRITE_OBJECT, 1)
    ensures HasCap(k.actors[SCANNER_SLOT], CAP_READ_OBJECT, 0) && HasCap(k.actors[SCANNER_SLOT], CAP_READ_OBJECT, 1)
    ensures HasCap(k.actors[SCANNER_SLOT], CAP_PROMOTE_OBJECT, 0)
  {
    GrantsDoFit();
    DownloaderHolds(k);
    ScannerHolds(k);
    ScannerMayPromote(k);
  }

  /** The first three grants are not Scanner's, so its table of twenty keeps an empty entry. */
  lemma ScannerHasRoom(k: Kernel)
    requires Up(k, Grants())
    ensures !TableFull(k.actors[SCANNER_SLOT])
  {
    var gs := Grants();
    GrantedBound(gs, SCANNER_SLOT, 3);
    assert gs[..3][..2] == gs[..2] && gs[..2][..1] == gs[..1] && gs[..1][..0] == [];
    assert GrantedTo(gs[..1], SCANNER_SLOT) == [];
    assert GrantedTo(gs[..2], SCANNER_SLOT) == [];
    assert GrantedTo(gs[..3], SCANNER_SLOT) == [];
    assert UpRow(k.actors[SCANNER_SLOT], gs, SCANNER_SLOT);
    assert k.actors[SCANNER_SLOT].caps[MAX_CAPS_PER_ACTOR - 1] == NO_CAP;
  }

  /** The next spawn takes the sixteenth slot and the sixteenth page. */
  lemma RoomForOneMore(k: Kernel)
    requires Up(k, Grants())
    ensures Scenes.RoomFor(k, ACTORS)
  {
    NextPage(k.mem, ACTORS);
    forall s: nat | s < ACTORS
      ensures !k.actors[s].state.Dead?
    {
      assert UpRow(k.actors[s], Grants(), s);
    }
    assert Paging.CreateSpace(k.spaces, ACTORS, PageFrames.Addr(ACTORS), STACK_SIZE).1 == k.spaces.layout.pml4 + ACTORS;
  }

  /** The run of kernel_main exists, on a blank disk, for whatever programs the actors are. */
  lemma KernelMainRuns(entries: seq<nat>, hello: seq<byte>) returns (ks: seq<Kernel>)
    requires |entries| == ACTORS
    ensures var es := KernelMain(entries, hello);
            && IsRun(ks, es) && ks[0] == Booting() && Up(ks[|es|], Grants()) && TwoUntrusted(ks[|es|].store)
            && HoldsProgram(ks[|es|].store, hello)
            && ks[|es|].actors[SHELL_SLOT].spawnQuota == 6 && ks[|es|].actors[SHELL_SLOT].window == 1
  {
    GrantsDoFit();
    var k1 := SpawnAll(entries, ACTORS);
    assert entries[..ACTORS] == entries;
    var k2 := CreateAll(k1, Spawns(entries), hello);
    var es2 := Spawns(entries) + Creations(hello);
    var k3 := GrantAll(k2, es2, Grants(), |Grants()|);
    assert Grants()[..|Grants()|] == Grants();
    var k4 := LastCalls(k3, es2 + GrantEvents(Grants()));
    ks :| IsRun(ks, KernelMain(entries, hello)) && ks[0] == Booting() && ks[|KernelMain(entries, hello)|] == k4;
  }

  lemma LastCalls(k: Kernel, es: seq<Event>) returns (k': Kernel)
    requires Boots(Booting(), es, k) && BootState(k, ACTORS, Grants()) && GrantsFit(Grants())
    ensures Boots(Booting(), es + [BootQuota(SHELL_SLOT, SHELL_SPAWN_QUOTA), BootWindow(SHELL_SLOT, CONSOLE_WIN_SHELL), Start], k')
    ensures Up(k', Grants()) && k'.store == k.store
    ensures k'.actors[SHELL_SLOT].spawnQuota == 6 && k'.actors[SHELL_SLOT].window == 1
  {
    var e1, e2 := BootQuota(SHELL_SLOT, SHELL_SPAWN_QUOTA), BootWindow(SHELL_SLOT, CONSOLE_WIN_SHELL);
    RowTweaks(k, Grants(), e1);
    BootsOn(Booting(), es, k, e1, es + [e1]);
    var k1 := Step(k, e1).0;
    RowTweaks(k1, Grants(), e2);
    BootsOn(Booting(), es + [e1], k1, e2, es + [e1] + [e2]);
    var k2 := Step(k1, e2).0;
    StartsUp(k2, Grants());
    BootsOn(Booting(), es + [e1] + [e2], k2, Start, es + [e1] + [e2] + [Start]);
    k' := Step(k2, Start).0;
    ThreeMore(es, e1, e2, Start);
  }

  lemma ThreeMore(es: seq<Event>, a: Event, b: Event, c: Event)
    ensures es + [a] + [b] + [c] == es + [a, b, c]
  {
  }
}
