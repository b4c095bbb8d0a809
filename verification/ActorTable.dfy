/** One row of core/actor.c's table: scheduling state, mailbox ring and capability table. */
module ActorTable {
  import opened Words

  const CAP_SEND: int := 1
  const CAP_SPAWN: int := 2
  const CAP_TERMINATE: int := 3
  const CAP_READ_OBJECT: int := 4
  const CAP_WRITE_OBJECT: int := 5
  const CAP_PROMOTE_OBJECT: int := 6
  const CAP_NET: int := 7
  const CAP_LIST_NAMES: int := 8
  const CAP_CREATE_OBJECT: int := 9
  const CAP_RENAME_OBJECT: int := 10
  const CAP_DELETE_OBJECT: int := 11
  const CAP_CONSOLE: int := 12

  datatype ActorState = Dead | Ready | Running | Blocked

  datatype Message = Message(mtype: u64, sender: nat, data: u64)

  /** The right to perform `op` toward `target`; op 0 marks an empty entry. */
  datatype Capability = Capability(op: int, target: int)

  const NO_CAP: Capability := Capability(0, 0)

  /**
    `mailbox` is the ring buffer and `caps` the capability table, so their
    lengths are MAILBOX_CAPACITY and MAX_CAPS_PER_ACTOR. `inReceive` says that
    the actor's kernel stack is suspended inside actor_receive's wait loop.
   */
  datatype Actor = Actor(state: ActorState, cr3: nat, stackPage: nat, entry: nat,
                         mailbox: seq<Message>, head: nat, count: nat,
                         caps: seq<Capability>, spawnCount: int, spawnQuota: int, window: int,
                         inReceive: bool)

  predicate ActorOk(a: Actor) {
    a.head < |a.mailbox| && a.count <= |a.mailbox|
  }

  predicate Runnable(a: Actor) {
    a.state.Ready? || a.state.Running?
  }

  // ---- the mailbox ring ---------------------------------------------------------

  /** x modulo n for an x that has wrapped at most once. */
  function Wrap(x: nat, n: nat): nat {
    if x < n then x else x - n
  }

  lemma WrapIsMod(x: nat, n: nat)
    requires 0 < n && x < 2 * n
    ensures x % n == Wrap(x, n)
  {
    if x >= n {
      QuotientUnique(x, n, 1, x - n);
    } else {
      QuotientUnique(x, n, 0, x);
    }
  }

  /** The queued messages, oldest first. */
  function Queue(a: Actor): (q: seq<Message>)
    requires ActorOk(a)
    ensures |q| == a.count
  {
    seq(a.count, i requires 0 <= i < a.count => a.mailbox[Wrap(a.head + i, |a.mailbox|)])
  }

  function Enqueue(a: Actor, m: Message): (r: Actor)
    requires ActorOk(a) && a.count < |a.mailbox|
    ensures ActorOk(r)
  {
    a.(mailbox := a.mailbox[Wrap(a.head + a.count, |a.mailbox|) := m], count := a.count + 1)
  }

  function Front(a: Actor): (m: Message)
    requires ActorOk(a) && a.count > 0
  {
    a.mailbox[a.head]
  }

  function Dequeue(a: Actor): (r: Actor)
    requires ActorOk(a) && a.count > 0
    ensures ActorOk(r)
  {
    a.(head := Wrap(a.head + 1, |a.mailbox|), count := a.count - 1)
  }

  /** The ring is a FIFO queue. */
  lemma EnqueueAppends(a: Actor, m: Message)
    requires ActorOk(a) && a.count < |a.mailbox|
    ensures Queue(Enqueue(a, m)) == Queue(a) + [m]
  {
    var a' := Enqueue(a, m);
    forall i | 0 <= i < a'.count
      ensures Queue(a')[i] == (Queue(a) + [m])[i]
    {
      assert Wrap(a.head + i, |a.mailbox|) == Wrap(a.head + a.count, |a.mailbox|) <==> i == a.count;
    }
  }

  lemma DequeueTakesFront(a: Actor)
    requires ActorOk(a) && a.count > 0
    ensures Queue(a) == [Front(a)] + Queue(Dequeue(a))
  {
    var a' := Dequeue(a);
    var q := [Front(a)] + Queue(a');
    forall i | 0 <= i < a.count
      ensures Queue(a)[i] == q[i]
    {
      assert Queue(a)[i] == a.mailbox[Wrap(a.head + i, |a.mailbox|)];
      if i == 0 {
        assert q[0] == Front(a);
      } else {
        assert q[i] == Queue(a')[i - 1] == a.mailbox[Wrap(a'.head + (i - 1), |a.mailbox|)];
      }
    }
  }

  // ---- the capability table -------------------------------------------------------

  predicate HasCap(a: Actor, op: int, target: int) {
    Capability(op, target) in a.caps
  }

  /** First empty entry, or the table's size. */
  function FreeCap(caps: seq<Capability>): (i: nat)
    ensures i <= |caps|
    ensures i < |caps| ==> caps[i].op == 0
    ensures forall j :: 0 <= j < i ==> caps[j].op != 0
  {
    if caps == [] || caps[0].op == 0 then 0 else 1 + FreeCap(caps[1..])
  }

  /** No entry is empty. */
  predicate TableFull(a: Actor) {
    forall c :: c in a.caps ==> c.op != 0
  }

  /** -1 when the table is full. */
  function AddCap(a: Actor, op: int, target: int): (r: (Actor, int))
    ensures r.0 == a.(caps := r.0.caps) && |r.0.caps| == |a.caps|
  {
    var i := FreeCap(a.caps);
    if i == |a.caps| then (a, -1) else (a.(caps := a.caps[i := Capability(op, target)]), 0)
  }

  /** Adding gives the capability asked for and nothing else, and never takes one away. */
  lemma AddCapEffect(a: Actor, op: int, target: int)
    ensures var (a', rc) := AddCap(a, op, target);
            && |a'.caps| == |a.caps|
            && (rc == 0 || a' == a)
            && (rc == 0 ==> HasCap(a', op, target))
            && (forall o, t :: o != 0 && HasCap(a', o, t) ==> HasCap(a, o, t) || (rc == 0 && o == op && t == target))
            && (forall o, t :: o != 0 && HasCap(a, o, t) ==> HasCap(a', o, t))
  {
    var i := FreeCap(a.caps);
    if i < |a.caps| {
      var caps' := a.caps[i := Capability(op, target)];
      assert caps'[i] == Capability(op, target);
      forall o, t | o != 0 && HasCap(a, o, t)
        ensures Capability(o, t) in caps'
      {
        var j :| 0 <= j < |a.caps| && a.caps[j] == Capability(o, t);
        assert caps'[j] == Capability(o, t);
      }
    }
  }

  /** Several additions in a row, each as far as there is room. */
  function AddCaps(a: Actor, cs: seq<Capability>): (r: Actor)
    ensures r == a.(caps := r.caps) && |r.caps| == |a.caps|
    decreases |cs|
  {
    if cs == [] then a else AddCaps(AddCap(a, cs[0].op, cs[0].target).0, cs[1..])
  }

  lemma {:induction false} AddCapsEffect(a: Actor, cs: seq<Capability>, c: Capability)
    requires c.op != 0 && c in AddCaps(a, cs).caps
    ensures c in a.caps || c in cs
    decreases |cs|
  {
    if cs != [] {
      var a1 := AddCap(a, cs[0].op, cs[0].target).0;
      AddCapsEffect(a1, cs[1..], c);
      AddCapEffect(a, cs[0].op, cs[0].target);
      if c in a1.caps {
        assert HasCap(a1, c.op, c.target);
        assert HasCap(a, c.op, c.target) || c == cs[0];
      }
    }
  }

  /** How many entries are empty. */
  function Empties(caps: seq<Capability>): nat {
    if caps == [] then 0 else (if caps[0].op == 0 then 1 else 0) + Empties(caps[1..])
  }

  lemma {:induction false} EmptiesZero(caps: seq<Capability>)
    ensures Empties(caps) == 0 <==> FreeCap(caps) == |caps|
  {
    if caps != [] {
      EmptiesZero(caps[1..]);
    }
  }

  lemma {:induction false} EmptiesFilled(caps: seq<Capability>, c: Capability)
    requires FreeCap(caps) < |caps| && c.op != 0
    ensures Empties(caps[FreeCap(caps) := c]) == Empties(caps) - 1
  {
    var filled := caps[FreeCap(caps) := c];
    if caps[0].op == 0 {
      assert filled == [c] + caps[1..];
    } else {
      EmptiesFilled(caps[1..], c);
      assert filled[1..] == caps[1..][FreeCap(caps[1..]) := c];
    }
  }

  /** What a table holds. */
  ghost function Rights(a: Actor): set<Capability> {
    set c | c in a.caps && c.op != 0
  }

  lemma AddCapRights(a: Actor, c: Capability)
    requires c.op != 0
    ensures var a' := AddCap(a, c.op, c.target).0;
            if Empties(a.caps) > 0 then Rights(a') == Rights(a) + {c} && Empties(a'.caps) == Empties(a.caps) - 1 else a' == a
  {
    EmptiesZero(a.caps);
    AddCapEffect(a, c.op, c.target);
    var a' := AddCap(a, c.op, c.target).0;
    if FreeCap(a.caps) < |a.caps| {
      EmptiesFilled(a.caps, c);
      forall d: Capability | d.op != 0
        ensures d in a'.caps <==> d in a.caps || d == c
      {
        assert HasCap(a', d.op, d.target) <==> d in a'.caps;
        assert HasCap(a, d.op, d.target) <==> d in a.caps;
      }
    }
  }

  /** The first n of these. */
  ghost function FirstOf(cs: seq<Capability>, n: nat): set<Capability> {
    set j | 0 <= j < |cs| && j < n :: cs[j]
  }

  /** Several additions give as many of the first as there are empty entries, and nothing else. */
  lemma {:induction false} AddCapsRights(a: Actor, cs: seq<Capability>)
    requires forall c :: c in cs ==> c.op != 0
    ensures Rights(AddCaps(a, cs)) == Rights(a) + FirstOf(cs, Empties(a.caps))
    decreases |cs|
  {
    if cs != [] {
      var c, a1 := cs[0], AddCap(a, cs[0].op, cs[0].target).0;
      AddCapRights(a, c);
      AddCapsRights(a1, cs[1..]);
      if Empties(a.caps) > 0 {
        FirstOfMore(cs, Empties(a.caps));
      } else {
        assert FirstOf(cs, 0) == {} == FirstOf(cs[1..], 0);
      }
    }
  }

  lemma FirstOfMore(cs: seq<Capability>, n: nat)
    requires cs != [] && n > 0
    ensures FirstOf(cs, n) == {cs[0]} + FirstOf(cs[1..], n - 1)
  {
    forall c
      ensures c in FirstOf(cs, n) <==> c == cs[0] || c in FirstOf(cs[1..], n - 1)
    {
      if j :| 0 <= j < |cs| && j < n && c == cs[j] {
        if j > 0 {
          assert cs[1..][j - 1] == c;
        }
      }
      if j :| 0 <= j < |cs[1..]| && j < n - 1 && c == cs[1..][j] {
        assert cs[j + 1] == c;
      }
    }
  }
}
